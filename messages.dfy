/** The `chat.postMessage` calls of the modelled code, as events: who the
    message goes to and what it announces. The message wording is not modelled. */
module Messages {

  /** `process.env.EVENT_CHANNEL`, or a direct message to a Slack user. */
  datatype Channel = EventChannel | Direct(slackId: string)

  datatype Notice =
    | FifteenMinutes(slackId: string)                                   // jobs.ts:109-112
    | SixPmWarning(slackId: string, tzLabel: string)                    // jobs.ts:142-145
    | TeamFounded(founder: string, clanName: string)                    // bot.ts:104-107
    | TeamCreated(founder: string, clanName: string, joinCode: string)  // bot.ts:108-111
    | TeamJoined(joiner: string, clanName: string, teammates: set<string>)  // bot.ts:172-175
    | TeamWelcome(joiner: string, clanName: string, joinCode: string)   // bot.ts:176-179
  {
    /** The channel the message is posted to. */
    function Target(): Channel {
      match this
      case FifteenMinutes(_) => EventChannel
      case SixPmWarning(u, _) => Direct(u)
      case TeamFounded(_, _) => EventChannel
      case TeamCreated(u, _, _) => Direct(u)
      case TeamJoined(_, _, _) => EventChannel
      case TeamWelcome(u, _, _) => Direct(u)
    }
  }
}
