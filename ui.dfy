/** `buildSockView` of src/ui.ts: the view `/sock` opens, with the gate that
    closes registration once the event has started, the countdown to the
    event's start or end, and the team block. The event's start and end
    instants are parameters. The Hakatime block, which depends on external
    heartbeat lookups, is not modelled. */
module Ui {
  import opened Wrappers
  import opened Time
  import opened Db
  import opened Bot

  /** The word in front of the countdown. */
  datatype Word = Starts | Ends

  datatype View =
    | SockathonStarted
    | Welcome(word: Word, countdown: Countdown, team: TeamBlock)

  /** The view is not built: the request lacks a Slack id or user name, the
      profile lookup fails, or the registration insert throws. */
  datatype ViewError = MissingIdentity | ProfileLookupFailed | RegistrationFailed

  /** The current instant shifted by the user's offset, a missing offset
      counting as 0. */
  function AdjustedNow(nowUtc: int, tzOffset: Option<int>): int {
    nowUtc + tzOffset.GetOr(0) * MsPerSecond
  }

  /** The gate of ui.ts:38-41: the "Sockathon has started!" view is shown
      when the adjusted now is past the event's start and the user has no row. */
  predicate RegistrationClosed(nowUtc: int, tzOffset: Option<int>, eventStart: int, hasRow: bool) {
    AdjustedNow(nowUtc, tzOffset) > eventStart && !hasRow
  }

  /** A registered user is never turned away, however late. */
  lemma RegisteredUsersStayIn(nowUtc: int, tzOffset: Option<int>, eventStart: int)
    ensures !RegistrationClosed(nowUtc, tzOffset, eventStart, true)
  {
  }

  /** The comparison is strict: at the exact start registration is open. */
  lemma OpenAtTheStart(nowUtc: int, tzOffset: Option<int>, eventStart: int, hasRow: bool)
    requires AdjustedNow(nowUtc, tzOffset) == eventStart
    ensures !RegistrationClosed(nowUtc, tzOffset, eventStart, hasRow)
  {
  }

  /** A missing offset counts as UTC. */
  lemma MissingOffsetIsUtc(nowUtc: int, eventStart: int, hasRow: bool)
    ensures RegistrationClosed(nowUtc, None, eventStart, hasRow) == RegistrationClosed(nowUtc, Some(0), eventStart, hasRow)
  {
  }

  /** Once closed for a user without a row, registration stays closed. */
  lemma ClosedStaysClosed(nowUtc: int, later: int, tzOffset: Option<int>, eventStart: int)
    requires nowUtc <= later
    requires RegistrationClosed(nowUtc, tzOffset, eventStart, false)
    ensures RegistrationClosed(later, tzOffset, eventStart, false)
  {
  }

  /** The span the countdown shows: to the start while the adjusted now is
      before it, to the end afterwards. */
  function CountdownSpan(adjustedNow: int, eventStart: int, eventEnd: int): (rn: int)
    ensures adjustedNow < eventStart ==> 0 < rn && adjustedNow + rn == eventStart
    ensures adjustedNow >= eventStart ==> adjustedNow + rn == eventEnd
  {
    if adjustedNow < eventStart then eventStart - adjustedNow else eventEnd - adjustedNow
  }

  /** ui.ts:223 compares the unadjusted `Date.now()` with the start. That
      clock reading is taken after the awaits that follow the gate, so it
      may be later than the one the gate and the countdown use. */
  function StartsOrEnds(nowUtc: int, eventStart: int): Word {
    if nowUtc < eventStart then Starts else Ends
  }

  /** For a user ahead of UTC in the hours before the start, the view says
      "Starts in" while counting down to the end. */
  lemma WordCanDisagreeWithTarget(nowUtc: int, tzOffset: int, eventStart: int, eventEnd: int)
    requires nowUtc < eventStart <= nowUtc + tzOffset * MsPerSecond
    ensures StartsOrEnds(nowUtc, eventStart) == Starts
    ensures CountdownSpan(AdjustedNow(nowUtc, Some(tzOffset)), eventStart, eventEnd) == eventEnd - AdjustedNow(nowUtc, Some(tzOffset))
  {
  }

  /** With no offset, a clock that advances past the start between the gate
      and the word makes the view say "Ends" while counting down to the start. */
  lemma WordCanLagTheCountdown(nowUtc: int, nowWord: int, eventStart: int, eventEnd: int)
    requires nowUtc < eventStart <= nowWord
    ensures StartsOrEnds(nowWord, eventStart) == Ends
    ensures AdjustedNow(nowUtc, Some(0)) + CountdownSpan(AdjustedNow(nowUtc, Some(0)), eventStart, eventEnd) == eventStart
  {
  }

  /** `buildSockView`. `nowUtc` is the clock reading of the gate and the
      countdown, `nowWord` the later one of the Starts/Ends word. */
  method BuildSockView(store: Store, slackId: string, username: string, profile: Option<Profile>,
                       nowUtc: int, nowWord: int, eventStart: int, eventEnd: int)
    returns (r: Result<View, ViewError>)
    requires store.Valid()
    modifies store`users
    ensures store.Valid()
    ensures slackId == "" || username == "" ==> r == Err(MissingIdentity)
    ensures slackId != "" && username != "" && profile.None? ==> r == Err(ProfileLookupFailed)
    ensures r == Ok(SockathonStarted) <==>
              && slackId != "" && username != "" && profile.Some?
              && RegistrationClosed(nowUtc, profile.value.tzOffset, eventStart, slackId in old(store.users))
    ensures slackId != "" && username != "" && profile.Some?
            && !RegistrationClosed(nowUtc, profile.value.tzOffset, eventStart, slackId in old(store.users)) ==>
              && (FillsRequiredColumns(profile.value) ==> r.Ok? && r.value.Welcome?)
              && (!FillsRequiredColumns(profile.value) ==> r == Err(RegistrationFailed))
    ensures r.Err? || r == Ok(SockathonStarted) ==> store.users == old(store.users)
    ensures r.Ok? && r.value.Welcome? ==>
              && profile.Some? && FillsRequiredColumns(profile.value)
              && store.users == (if slackId in old(store.users) then old(store.users)
                                 else old(store.users)[slackId := User(username, profile.value.tzLabel.value, profile.value.tzOffset.value, None)])
              && slackId in store.users
              && var adjusted := AdjustedNow(nowUtc, profile.value.tzOffset);
                 r.value == Welcome(StartsOrEnds(nowWord, eventStart),
                                    SplitSpan(CountdownSpan(adjusted, eventStart, eventEnd)),
                                    TeamBlockFor(ClanOf(store.users, store.clans, slackId)))
  {
    if slackId == "" || username == "" {
      return Err(MissingIdentity);
    }
    if profile.None? {
      return Err(ProfileLookupFailed);
    }
    var adjustedNowTimestamp := AdjustedNow(nowUtc, profile.value.tzOffset);
    if adjustedNowTimestamp > eventStart && slackId !in store.users {
      return Ok(SockathonStarted);
    }
    var ok := InsertUserIfAbsent(store, slackId, username, profile.value);
    if !ok {
      return Err(RegistrationFailed);
    }
    var clan := ClanOf(store.users, store.clans, slackId);
    var rn := CountdownSpan(adjustedNowTimestamp, eventStart, eventEnd);
    r := Ok(Welcome(StartsOrEnds(nowWord, eventStart), SplitSpan(rn), TeamBlockFor(clan)));
  }
}
