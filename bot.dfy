/**
 * The bot's in-memory state and the handlers that change it step by step:
 * the session table, the two leaderboards and the game-role bindings, with
 * `on_presence_update`, `check_milestones`, `add_game_role`, the two
 * leaderboard updates and the `whoplays` scan as methods.  Each method is
 * proved equal to the function of the same behaviour in the other modules.
 */
module Bot {
  import opened Wrappers
  import opened Dicts
  import opened Text
  import opened Sessions
  import opened Presence
  import opened Accounting
  import opened Roles
  import opened Milestones
  import opened Players
  import opened Tracking

  class Tracker {
    var sessions: Dict<UserId, Session>
    var userBoard: Board<UserId>
    var gameBoard: Board<string>
    var gameRoles: RoleTable

    /** The four tables as one value. */
    function Current(): Tables
      reads this
    {
      Tables(sessions, userBoard, gameBoard, gameRoles)
    }

    /** One session per member, unique keys, and both leaderboards adding up to the same total per guild. */
    ghost predicate Valid()
      reads this
    {
      WellFormed(Current()) && Balanced(Current())
    }

    /** A bot with no data files yet: every table empty. */
    constructor ()
      ensures Current() == Tables([], map[], map[], map[])
      ensures Valid()
    {
      sessions := [];
      userBoard := map[];
      gameBoard := map[];
      gameRoles := map[];
    }

    /** `update_leaderboard`: the guild's dictionary is created when missing, then the member's total grows by `seconds`. */
    method UpdateLeaderboard(guild: GuildId, user: UserId, seconds: int)
      modifies this
      ensures userBoard == Credit(old(userBoard), guild, user, seconds)
      ensures sessions == old(sessions) && gameBoard == old(gameBoard) && gameRoles == old(gameRoles)
    {
      if guild !in userBoard {
        userBoard := userBoard[guild := []];
      }
      userBoard := userBoard[guild := Put(userBoard[guild], user, GetOr(userBoard[guild], user, 0) + seconds)];
    }

    /** `update_game_leaderboard`: the same for the game's total. */
    method UpdateGameLeaderboard(guild: GuildId, game: string, seconds: int)
      modifies this
      ensures gameBoard == Credit(old(gameBoard), guild, game, seconds)
      ensures sessions == old(sessions) && userBoard == old(userBoard) && gameRoles == old(gameRoles)
    {
      if guild !in gameBoard {
        gameBoard := gameBoard[guild := []];
      }
      gameBoard := gameBoard[guild := Put(gameBoard[guild], game, GetOr(gameBoard[guild], game, 0) + seconds)];
    }

    /** `add_game_role`: binds the lower-cased name to the role in this guild. */
    method AddGameRole(guild: GuildId, name: string, role: RoleId)
      requires Valid()
      modifies this
      ensures Valid()
      ensures gameRoles == Bind(old(gameRoles), guild, name, role)
      ensures sessions == old(sessions) && userBoard == old(userBoard) && gameBoard == old(gameBoard)
    {
      if guild !in gameRoles {
        gameRoles := gameRoles[guild := map[]];
      }
      var inner: map<string, RoleId> := gameRoles[guild];
      gameRoles := gameRoles[guild := inner[Lower(name) := role]];
    }

    /**
     * `on_presence_update`, branch for branch: the tables it leaves, whether a
     * switch found no session, and the role changes it asks for are those of
     * `Handle`, and the tables stay valid.  The branch is the one `Classify`
     * picks from the first "playing" activity on each side and the status change.
     */
    method OnPresenceUpdate(e: PresenceEvent, now: int) returns (outcome: Outcome, changes: seq<RoleChange>)
      requires Valid()
      modifies this
      ensures Valid()
      ensures Reaction(Current(), outcome, changes) == Handle(old(Current()), e, now)
    {
      ghost var t := Current();
      HandleKeepsWellFormed(t, e, now);
      HandleKeepsBalanced(t, e, now);
      outcome, changes := Handled, [];
      if e.isBot {
        return;
      }
      match Classify(e.before, e.after, e.beforeStatus, e.afterStatus)
      case StartPlaying(game) =>
        changes := StartSession(e, game, now);
      case StopPlaying =>
        changes := EndSession(e, now);
      case SwitchGame(from, to) =>
        outcome, changes := SwitchSession(e, from, to, now);
      case NoTransition =>
    }

    /** The start branch: the member's session is (over)written with a fresh one and the game's role is granted. */
    method StartSession(e: PresenceEvent, game: string, now: int) returns (changes: seq<RoleChange>)
      modifies this
      ensures Reaction(Current(), Handled, changes) == Start(old(Current()), e, game, now)
    {
      sessions := Put(sessions, e.user, NewSession(now, game, e.guild, e.channel));
      changes := GrantFor(gameRoles, e, game);
    }

    /** The stop branch: an open session is popped, its time credited to both leaderboards, and its game's role revoked. */
    method EndSession(e: PresenceEvent, now: int) returns (changes: seq<RoleChange>)
      modifies this
      ensures Reaction(Current(), Handled, changes) == Stop(old(Current()), e, now)
    {
      ghost var t := Current();
      changes := [];
      if HasKey(sessions, e.user) {
        var info := Get(sessions, e.user).value;
        var duration := now - info.start;
        StopPops(t, e, now);
        sessions := Remove(sessions, e.user);
        UpdateLeaderboard(e.guild, e.user, duration);
        UpdateGameLeaderboard(e.guild, info.game, duration);
        changes := RevokeFor(gameRoles, e, info.game);
        assert Current() == Pop(t, e.user, e.guild, info.game, duration);
      }
    }

    /**
     * The switch branch: the session is popped (a missing one is the
     * `KeyError`, before anything changes), its time credited, the old game's
     * role revoked, a fresh session written and the new game's role granted.
     */
    method SwitchSession(e: PresenceEvent, from: string, to: string, now: int)
      returns (outcome: Outcome, changes: seq<RoleChange>)
      modifies this
      ensures Reaction(Current(), outcome, changes) == Switch(old(Current()), e, from, to, now)
    {
      ghost var t := Current();
      if !HasKey(sessions, e.user) {
        return MissingSession, [];
      }
      var info := Get(sessions, e.user).value;
      var duration := now - info.start;
      var next := NewSession(now, to, e.guild, e.channel);
      SwitchReopensTables(t, e, from, to, now);
      sessions := Remove(sessions, e.user);
      UpdateLeaderboard(e.guild, e.user, duration);
      UpdateGameLeaderboard(e.guild, info.game, duration);
      changes := RevokeFor(gameRoles, e, from);
      sessions := Put(sessions, e.user, next);
      changes := changes + GrantFor(gameRoles, e, to);
      outcome := Handled;
      assert changes == RevokeFor(t.gameRoles, e, from) + GrantFor(t.gameRoles, e, to);
      assert Current() == Reopen(t, e.user, next, e.guild, info.game, duration);
    }

    /**
     * `check_milestones` at time `now`: every session, in table order, gets
     * each hour threshold it has reached and not yet marked appended to its
     * milestone list, with the messages `MarkMilestones` sends.  The table
     * becomes `SweepAll`, the messages are `Announcements`, and nothing else changes.
     */
    method CheckMilestones(now: int, reachable: set<UserId>) returns (announced: seq<(UserId, int)>)
      requires Valid()
      modifies this
      ensures Valid()
      ensures sessions == SweepAll(old(sessions), now)
      ensures announced == Announcements(old(sessions), now, reachable)
      ensures userBoard == old(userBoard) && gameBoard == old(gameBoard) && gameRoles == old(gameRoles)
    {
      ghost var t := Current();
      announced := [];
      var i := 0;
      while i < |sessions|
        invariant 0 <= i <= |sessions| == |t.sessions|
        invariant forall k :: 0 <= k < i ==> sessions[k] == (t.sessions[k].0, SweepSession(t.sessions[k].1, now))
        invariant forall k :: i <= k < |sessions| ==> sessions[k] == t.sessions[k]
        invariant announced == Announcements(t.sessions[..i], now, reachable)
        invariant userBoard == t.userBoard && gameBoard == t.gameBoard && gameRoles == t.gameRoles
      {
        var (u, info) := sessions[i];
        var next, messages := MarkMilestones(u, info, now, reachable);
        assert t.sessions[..i + 1] == t.sessions[..i] + [(u, info)];
        ConcatMapAppend(t.sessions[..i], [(u, info)], AnnounceOf(now, reachable));
        announced := announced + messages;
        sessions := sessions[i := (u, next)];
        i := i + 1;
      }
      assert sessions == SweepAll(t.sessions, now);
      assert t.sessions[..i] == t.sessions;
      SweepKeepsWellFormed(t, now);
    }

    /**
     * The inner loop of `check_milestones` for one session: each threshold, in
     * order, that the minutes played reach and the list does not hold yet is
     * announced (when `reachable` says the member, guild and channel resolve
     * and a channel was stored) and then appended, whether or not it was announced.
     */
    method MarkMilestones(u: UserId, info: Session, now: int, reachable: set<UserId>)
      returns (next: Session, messages: seq<(UserId, int)>)
      ensures next == SweepSession(info, now)
      ensures messages == Announce(u, info, now, reachable)
    {
      var minutes := MinutesPlayed(info.start, now);
      var hit := info.milestonesHit;
      ghost var loud := u in reachable && info.channel.Some?;
      messages := [];
      var j := 0;
      while j < |Thresholds|
        invariant 0 <= j <= |Thresholds|
        invariant hit == info.milestonesHit + NewlyReached(info.milestonesHit, Thresholds[..j], minutes)
        invariant messages == if loud then Tag(u, NewlyReached(info.milestonesHit, Thresholds[..j], minutes)) else []
      {
        var threshold := Thresholds[j];
        ghost var prev := NewlyReached(info.milestonesHit, Thresholds[..j], minutes);
        assert Thresholds[..j + 1][..j] == Thresholds[..j];
        if minutes >= threshold && threshold !in hit {
          if u in reachable && info.channel.Some? {
            messages := messages + [(u, threshold)];
            TagAppend(u, prev, threshold);
          }
          hit := hit + [threshold];
        }
        j := j + 1;
      }
      assert Thresholds[..j] == Thresholds;
      next := info.(milestonesHit := hit);
    }

    /** The `whoplays` scan over the session table, in table order. */
    method WhoPlays(guild: GuildId, query: string, members: set<UserId>, now: int) returns (players: seq<(UserId, int)>)
      ensures players == NowPlaying(sessions, guild, query, members, now)
    {
      players := [];
      var i := 0;
      while i < |sessions|
        invariant 0 <= i <= |sessions|
        invariant players == NowPlaying(sessions[..i], guild, query, members, now)
      {
        var (u, info) := sessions[i];
        assert sessions[..i + 1] == sessions[..i] + [(u, info)];
        ConcatMapAppend(sessions[..i], [(u, info)], ListingOf(guild, query, members, now));
        if Plays(info, guild, query) && u in members {
          players := players + [(u, now - info.start)];
        }
        i := i + 1;
      }
      assert sessions[..i] == sessions;
    }
  }
}
