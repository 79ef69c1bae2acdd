/** The identifiers the bot handles and the record it keeps per playing member. */
module Sessions {
  import opened Wrappers

  type UserId = nat
  type GuildId = nat
  type ChannelId = nat
  type RoleId = nat

  /**
   * One entry of the session table: when the member started, the game's
   * name as reported, the milestones (in minutes) already marked, and the
   * guild and announcement channel seen when the session began (no channel
   * when the guild has none).
   */
  datatype Session = Session(
    start: int,
    game: string,
    milestonesHit: seq<int>,
    guild: GuildId,
    channel: Option<ChannelId>)

  /** The record written when a member starts, or switches to, a game. */
  function NewSession(now: int, game: string, guild: GuildId, channel: Option<ChannelId>): Session
  {
    Session(now, game, [], guild, channel)
  }
}
