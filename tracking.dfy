/**
 * The session tracker of `on_presence_update`: what a presence update does
 * to the session table and the two leaderboards, and which game roles it
 * grants or revokes.  Time is the integer `now`, in seconds.
 */
module Tracking {
  import opened Wrappers
  import opened Dicts
  import opened Text
  import opened Sessions
  import opened Presence
  import opened Accounting
  import opened Roles
  import opened Milestones

  /** The four tables the bot keeps in memory (and mirrors to its JSON files). */
  datatype Tables = Tables(
    sessions: Dict<UserId, Session>,
    userBoard: Board<UserId>,
    gameBoard: Board<string>,
    gameRoles: RoleTable)

  /** Every session's milestone list holds no threshold twice. */
  ghost predicate MilestonesOk(sessions: Dict<UserId, Session>)
  {
    forall u :: HasKey(sessions, u) ==> NoDup(Get(sessions, u).value.milestonesHit)
  }

  /** What the dictionaries guarantee: one session per member, one entry per key, no milestone twice. */
  ghost predicate WellFormed(t: Tables)
  {
    Distinct(t.sessions) && MilestonesOk(t.sessions) && BoardOk(t.userBoard) && BoardOk(t.gameBoard)
  }

  /**
   * Every second credited to a member is credited to a game in the same
   * guild: both leaderboards of each guild add up to the same total.
   */
  ghost predicate Balanced(t: Tables)
  {
    BoardsBalanced(t.userBoard, t.gameBoard)
  }

  ghost predicate BoardsBalanced(users: Board<UserId>, games: Board<string>)
  {
    forall g :: Total(users, g) == Total(games, g)
  }

  /**
   * One presence update: the member, whether it is a bot, the guild it
   * arrived for, that guild's "presence-update" channel if it has one, the
   * roles the guild still has, and the activities and status before and after.
   */
  datatype PresenceEvent = PresenceEvent(
    user: UserId,
    isBot: bool,
    guild: GuildId,
    channel: Option<ChannelId>,
    liveRoles: set<RoleId>,
    before: seq<Activity>,
    after: seq<Activity>,
    beforeStatus: Status,
    afterStatus: Status)

  /** `MissingSession` is the `KeyError` of a switch whose member has no session. */
  datatype Outcome = Handled | MissingSession

  datatype RoleChange = Grant(role: RoleId) | Revoke(role: RoleId)

  datatype Reaction = Reaction(tables: Tables, outcome: Outcome, changes: seq<RoleChange>)

  /** `handle_game_role(member, game, "add")`: the grant, if the binder decides on one. */
  function GrantFor(roles: RoleTable, e: PresenceEvent, game: string): seq<RoleChange>
  {
    match RoleFor(roles, e.guild, game, e.liveRoles)
    case Some(r) => [Grant(r)]
    case None => []
  }

  /** `handle_game_role(member, game, "remove")`. */
  function RevokeFor(roles: RoleTable, e: PresenceEvent, game: string): seq<RoleChange>
  {
    match RoleFor(roles, e.guild, game, e.liveRoles)
    case Some(r) => [Revoke(r)]
    case None => []
  }

  /**
   * Start: the member's session becomes a fresh record for the game, even if
   * one was open (it is overwritten); no other session and no leaderboard changes.
   */
  function Start(t: Tables, e: PresenceEvent, game: string, now: int): (r: Reaction)
    ensures Get(r.tables.sessions, e.user) == Some(NewSession(now, game, e.guild, e.channel))
    ensures forall u :: u != e.user ==> Get(r.tables.sessions, u) == Get(t.sessions, u)
    ensures r.tables.userBoard == t.userBoard && r.tables.gameBoard == t.gameBoard
    ensures r.tables.gameRoles == t.gameRoles && r.outcome == Handled
    ensures r.changes == GrantFor(t.gameRoles, e, game)
  {
    var sessions := Put(t.sessions, e.user, NewSession(now, game, e.guild, e.channel));
    Reaction(t.(sessions := sessions), Handled, GrantFor(t.gameRoles, e, game))
  }

  /** Pop a member's session and credit `seconds` to the member and to `game`. */
  function Pop(t: Tables, u: UserId, guild: GuildId, game: string, seconds: int): Tables
  {
    Tables(Remove(t.sessions, u),
           Credit(t.userBoard, guild, u, seconds),
           Credit(t.gameBoard, guild, game, seconds),
           t.gameRoles)
  }

  /**
   * Stop: with a session, it is removed and `now - start` is credited to the
   * member and to the session's game in the event's guild, and the game's
   * role is revoked; without one, nothing happens.
   */
  function Stop(t: Tables, e: PresenceEvent, now: int): (r: Reaction)
    ensures Get(r.tables.sessions, e.user) == None
    ensures forall u :: u != e.user ==> Get(r.tables.sessions, u) == Get(t.sessions, u)
    ensures r.tables.gameRoles == t.gameRoles && r.outcome == Handled
    ensures !HasKey(t.sessions, e.user) ==> r.tables == t && r.changes == []
    ensures HasKey(t.sessions, e.user) ==>
      var info := Get(t.sessions, e.user).value;
      r.tables.userBoard == Credit(t.userBoard, e.guild, e.user, now - info.start) &&
      r.tables.gameBoard == Credit(t.gameBoard, e.guild, info.game, now - info.start) &&
      r.changes == RevokeFor(t.gameRoles, e, info.game)
  {
    match Get(t.sessions, e.user)
    case None => Reaction(t, Handled, [])
    case Some(info) =>
      Reaction(Pop(t, e.user, e.guild, info.game, now - info.start), Handled, RevokeFor(t.gameRoles, e, info.game))
  }

  /** Pop a member's session, open `next` in its place at the end, and credit `seconds` to the member and to `game`. */
  function Reopen(t: Tables, u: UserId, next: Session, guild: GuildId, game: string, seconds: int): Tables
  {
    Tables(Put(Remove(t.sessions, u), u, next),
           Credit(t.userBoard, guild, u, seconds),
           Credit(t.gameBoard, guild, game, seconds),
           t.gameRoles)
  }

  /**
   * Switch from one game to another: the open session is popped (a missing
   * one raises before anything changes), its time is credited to its own
   * game, and a fresh session for the new game goes to the end of the table.
   * The role of the game named in the update's "before" side is revoked and
   * the new game's role granted.
   */
  function Switch(t: Tables, e: PresenceEvent, from: string, to: string, now: int): (r: Reaction)
    ensures !HasKey(t.sessions, e.user) <==> r.outcome == MissingSession
    ensures !HasKey(t.sessions, e.user) ==> r.tables == t && r.changes == []
    ensures r.tables.gameRoles == t.gameRoles
  {
    match Get(t.sessions, e.user)
    case None => Reaction(t, MissingSession, [])
    case Some(info) =>
      var tables := Reopen(t, e.user, NewSession(now, to, e.guild, e.channel), e.guild, info.game, now - info.start);
      Reaction(tables, Handled, RevokeFor(t.gameRoles, e, from) + GrantFor(t.gameRoles, e, to))
  }

  /** `on_presence_update` without its announcements: bots are ignored, then the transition decides. */
  function Handle(t: Tables, e: PresenceEvent, now: int): (r: Reaction)
    ensures r.tables.gameRoles == t.gameRoles
    ensures e.isBot ==> r == Reaction(t, Handled, [])
    ensures r.outcome == MissingSession ==> r.tables == t
  {
    if e.isBot then Reaction(t, Handled, [])
    else
      match Classify(e.before, e.after, e.beforeStatus, e.afterStatus)
      case StartPlaying(game) => Start(t, e, game, now)
      case StopPlaying => Stop(t, e, now)
      case SwitchGame(from, to) => Switch(t, e, from, to, now)
      case NoTransition => Reaction(t, Handled, [])
  }

  lemma MilestonesOkPut(sessions: Dict<UserId, Session>, u: UserId, info: Session)
    requires MilestonesOk(sessions) && NoDup(info.milestonesHit)
    ensures MilestonesOk(Put(sessions, u, info))
  {
    var r := Put(sessions, u, info);
    forall v | HasKey(r, v) ensures NoDup(Get(r, v).value.milestonesHit) {
      if v != u { assert Get(r, v) == Get(sessions, v); }
    }
  }

  lemma MilestonesOkRemove(sessions: Dict<UserId, Session>, u: UserId)
    requires MilestonesOk(sessions)
    ensures MilestonesOk(Remove(sessions, u))
  {
    var r := Remove(sessions, u);
    forall v | HasKey(r, v) ensures NoDup(Get(r, v).value.milestonesHit) {
      assert Get(r, v) == Get(sessions, v);
    }
  }

  lemma StartKeepsWellFormed(t: Tables, e: PresenceEvent, game: string, now: int)
    requires WellFormed(t)
    ensures WellFormed(Start(t, e, game, now).tables)
  {
    var info := NewSession(now, game, e.guild, e.channel);
    PutDistinct(t.sessions, e.user, info);
    MilestonesOkPut(t.sessions, e.user, info);
  }

  lemma StopKeepsWellFormed(t: Tables, e: PresenceEvent, now: int)
    requires WellFormed(t)
    ensures WellFormed(Stop(t, e, now).tables)
  {
    if HasKey(t.sessions, e.user) {
      var info := Get(t.sessions, e.user).value;
      RemoveDistinct(t.sessions, e.user);
      MilestonesOkRemove(t.sessions, e.user);
      CreditKeepsBoardOk(t.userBoard, e.guild, e.user, now - info.start);
      CreditKeepsBoardOk(t.gameBoard, e.guild, info.game, now - info.start);
    }
  }

  /** Popping a member's session, opening a fresh one for them and crediting both boards keeps the tables well formed. */
  lemma ReopenKeepsWellFormed(t: Tables, u: UserId, next: Session, guild: GuildId, game: string, seconds: int)
    requires WellFormed(t) && next.milestonesHit == []
    ensures WellFormed(Reopen(t, u, next, guild, game, seconds))
  {
    var popped := Remove(t.sessions, u);
    RemoveDistinct(t.sessions, u);
    MilestonesOkRemove(t.sessions, u);
    PutDistinct(popped, u, next);
    MilestonesOkPut(popped, u, next);
    CreditKeepsBoardOk(t.userBoard, guild, u, seconds);
    CreditKeepsBoardOk(t.gameBoard, guild, game, seconds);
  }

  /** With a session, a stop is a pop crediting the session's own game. */
  lemma StopPops(t: Tables, e: PresenceEvent, now: int)
    requires HasKey(t.sessions, e.user)
    ensures
      var info := Get(t.sessions, e.user).value;
      Stop(t, e, now) == Reaction(Pop(t, e.user, e.guild, info.game, now - info.start), Handled, RevokeFor(t.gameRoles, e, info.game))
  {
  }

  /** With a session, a switch is a reopen crediting the popped session's game. */
  lemma SwitchReopensTables(t: Tables, e: PresenceEvent, from: string, to: string, now: int)
    requires HasKey(t.sessions, e.user)
    ensures
      var info := Get(t.sessions, e.user).value;
      Switch(t, e, from, to, now) ==
        Reaction(Reopen(t, e.user, NewSession(now, to, e.guild, e.channel), e.guild, info.game, now - info.start),
                 Handled, RevokeFor(t.gameRoles, e, from) + GrantFor(t.gameRoles, e, to))
  {
  }

  /** A switch leaves every other member's session as it was. */
  lemma SwitchKeepsOthers(t: Tables, e: PresenceEvent, from: string, to: string, now: int, u: UserId)
    requires u != e.user
    ensures Get(Switch(t, e, from, to, now).tables.sessions, u) == Get(t.sessions, u)
  {
  }

  /** A switch opens a fresh session for the new game, placed at the end of the table. */
  lemma SwitchReopens(t: Tables, e: PresenceEvent, from: string, to: string, now: int)
    requires HasKey(t.sessions, e.user)
    ensures
      var sessions := Switch(t, e, from, to, now).tables.sessions;
      Get(sessions, e.user) == Some(NewSession(now, to, e.guild, e.channel)) &&
      sessions != [] && sessions[|sessions| - 1].0 == e.user
  {
  }

  /**
   * With a session, a switch credits the popped session's time to the member
   * and to the popped session's game, revokes the role of the game the update
   * names as the old one and grants the new game's role.
   */
  lemma SwitchCredits(t: Tables, e: PresenceEvent, from: string, to: string, now: int)
    requires HasKey(t.sessions, e.user)
    ensures
      var info := Get(t.sessions, e.user).value;
      var r := Switch(t, e, from, to, now);
      r.tables.userBoard == Credit(t.userBoard, e.guild, e.user, now - info.start) &&
      r.tables.gameBoard == Credit(t.gameBoard, e.guild, info.game, now - info.start) &&
      r.changes == RevokeFor(t.gameRoles, e, from) + GrantFor(t.gameRoles, e, to)
  {
  }

  lemma SwitchKeepsWellFormed(t: Tables, e: PresenceEvent, from: string, to: string, now: int)
    requires WellFormed(t)
    ensures WellFormed(Switch(t, e, from, to, now).tables)
  {
    if HasKey(t.sessions, e.user) {
      var info := Get(t.sessions, e.user).value;
      ReopenKeepsWellFormed(t, e.user, NewSession(now, to, e.guild, e.channel), e.guild, info.game, now - info.start);
    }
  }

  /** Every presence update keeps one session per member, unique leaderboard keys and duplicate-free milestone lists. */
  lemma HandleKeepsWellFormed(t: Tables, e: PresenceEvent, now: int)
    requires WellFormed(t)
    ensures WellFormed(Handle(t, e, now).tables)
  {
    if !e.isBot {
      match Classify(e.before, e.after, e.beforeStatus, e.afterStatus)
      case StartPlaying(game) => StartKeepsWellFormed(t, e, game, now);
      case StopPlaying => StopKeepsWellFormed(t, e, now);
      case SwitchGame(from, to) => SwitchKeepsWellFormed(t, e, from, to, now);
      case NoTransition =>
    }
  }

  /** Crediting the same seconds to a member and to a game of the same guild keeps the guild balanced. */
  lemma CreditPairKeepsBalanced(users: Board<UserId>, games: Board<string>, guild: GuildId, user: UserId,
                                game: string, seconds: int)
    requires BoardsBalanced(users, games)
    ensures BoardsBalanced(Credit(users, guild, user, seconds), Credit(games, guild, game, seconds))
  {
    forall g
      ensures Total(Credit(users, guild, user, seconds), g) == Total(Credit(games, guild, game, seconds), g)
    {
      CreditTotal(users, guild, user, seconds, g);
      CreditTotal(games, guild, game, seconds, g);
    }
  }

  lemma StopKeepsBalanced(t: Tables, e: PresenceEvent, now: int)
    requires Balanced(t)
    ensures Balanced(Stop(t, e, now).tables)
  {
    if HasKey(t.sessions, e.user) {
      var info := Get(t.sessions, e.user).value;
      CreditPairKeepsBalanced(t.userBoard, t.gameBoard, e.guild, e.user, info.game, now - info.start);
    }
  }

  lemma ReopenKeepsBalanced(t: Tables, u: UserId, next: Session, guild: GuildId, game: string, seconds: int)
    requires Balanced(t)
    ensures Balanced(Reopen(t, u, next, guild, game, seconds))
  {
    CreditPairKeepsBalanced(t.userBoard, t.gameBoard, guild, u, game, seconds);
  }

  lemma SwitchKeepsBalanced(t: Tables, e: PresenceEvent, from: string, to: string, now: int)
    requires Balanced(t)
    ensures Balanced(Switch(t, e, from, to, now).tables)
  {
    if HasKey(t.sessions, e.user) {
      var info := Get(t.sessions, e.user).value;
      ReopenKeepsBalanced(t, e.user, NewSession(now, to, e.guild, e.channel), e.guild, info.game, now - info.start);
    }
  }

  /** Every presence update credits the same seconds to both leaderboards of the same guild. */
  lemma HandleKeepsBalanced(t: Tables, e: PresenceEvent, now: int)
    requires Balanced(t)
    ensures Balanced(Handle(t, e, now).tables)
  {
    if !e.isBot {
      match Classify(e.before, e.after, e.beforeStatus, e.afterStatus)
      case StartPlaying(game) =>
        assert Start(t, e, game, now).tables == t.(sessions := Start(t, e, game, now).tables.sessions);
      case StopPlaying => StopKeepsBalanced(t, e, now);
      case SwitchGame(from, to) => SwitchKeepsBalanced(t, e, from, to, now);
      case NoTransition =>
    }
  }

  /**
   * A member who starts a game at `t0` and stops at `t1` ends with no session
   * and has `t1 - t0` more seconds, both on their own entry and on the game's
   * entry of the guild the stop arrived for.
   */
  lemma StartThenStop(t: Tables, start: PresenceEvent, stop: PresenceEvent, t0: int, t1: int)
    requires !start.isBot && !stop.isBot && start.user == stop.user
    requires Classify(start.before, start.after, start.beforeStatus, start.afterStatus).StartPlaying?
    requires Classify(stop.before, stop.after, stop.beforeStatus, stop.afterStatus).StopPlaying?
    ensures
      var game := Classify(start.before, start.after, start.beforeStatus, start.afterStatus).game;
      var final := Handle(Handle(t, start, t0).tables, stop, t1).tables;
      !HasKey(final.sessions, stop.user) &&
      GetOr(Entries(final.userBoard, stop.guild), stop.user, 0)
        == GetOr(Entries(t.userBoard, stop.guild), stop.user, 0) + (t1 - t0) &&
      GetOr(Entries(final.gameBoard, stop.guild), game, 0)
        == GetOr(Entries(t.gameBoard, stop.guild), game, 0) + (t1 - t0)
  {
    var game := Classify(start.before, start.after, start.beforeStatus, start.afterStatus).game;
    var mid := Handle(t, start, t0).tables;
    assert Get(mid.sessions, stop.user) == Some(NewSession(t0, game, start.guild, start.channel));
    assert mid.userBoard == t.userBoard && mid.gameBoard == t.gameBoard;
  }

  /**
   * A member who starts a game at `t0` and switches to another at `t1` ends
   * with a fresh session for the new game, and has `t1 - t0` more seconds on
   * their own entry and on the started game's entry of the switch's guild.
   */
  lemma StartThenSwitch(t: Tables, start: PresenceEvent, sw: PresenceEvent, t0: int, t1: int)
    requires !start.isBot && !sw.isBot && start.user == sw.user
    requires Classify(start.before, start.after, start.beforeStatus, start.afterStatus).StartPlaying?
    requires Classify(sw.before, sw.after, sw.beforeStatus, sw.afterStatus).SwitchGame?
    ensures
      var game := Classify(start.before, start.after, start.beforeStatus, start.afterStatus).game;
      var to := Classify(sw.before, sw.after, sw.beforeStatus, sw.afterStatus).to;
      var mid := Handle(t, start, t0).tables;
      var r := Handle(mid, sw, t1);
      r.outcome == Handled &&
      Get(r.tables.sessions, sw.user) == Some(NewSession(t1, to, sw.guild, sw.channel)) &&
      GetOr(Entries(r.tables.userBoard, sw.guild), sw.user, 0)
        == GetOr(Entries(t.userBoard, sw.guild), sw.user, 0) + (t1 - t0) &&
      GetOr(Entries(r.tables.gameBoard, sw.guild), game, 0)
        == GetOr(Entries(t.gameBoard, sw.guild), game, 0) + (t1 - t0)
  {
    var game := Classify(start.before, start.after, start.beforeStatus, start.afterStatus).game;
    var c := Classify(sw.before, sw.after, sw.beforeStatus, sw.afterStatus);
    var mid := Handle(t, start, t0).tables;
    assert Get(mid.sessions, sw.user) == Some(NewSession(t0, game, start.guild, start.channel));
    assert mid.userBoard == t.userBoard && mid.gameBoard == t.gameBoard;
    SwitchCredits(mid, sw, c.from, c.to, t1);
    SwitchReopens(mid, sw, c.from, c.to, t1);
    CreditAdds(mid.userBoard, sw.guild, sw.user, t1 - t0);
    CreditAdds(mid.gameBoard, sw.guild, game, t1 - t0);
  }

  /** A start overwrites an open session where it stands, or opens a new one at the end of the table. */
  lemma StartKeepsPlaces(t: Tables, e: PresenceEvent, game: string, now: int)
    ensures
      var sessions := Start(t, e, game, now).tables.sessions;
      |sessions| == (if HasKey(t.sessions, e.user) then |t.sessions| else |t.sessions| + 1) &&
      (forall i :: 0 <= i < |t.sessions| ==> sessions[i].0 == t.sessions[i].0) &&
      (!HasKey(t.sessions, e.user) ==> sessions[|t.sessions|].0 == e.user)
  {
  }

  /** A stop cuts the member's session out of the table and keeps every other session in its order. */
  lemma StopKeepsOrder(t: Tables, e: PresenceEvent, now: int, i: int)
    requires Distinct(t.sessions) && 0 <= i < |t.sessions| && t.sessions[i].0 == e.user
    ensures Stop(t, e, now).tables.sessions == t.sessions[..i] + t.sessions[i + 1..]
  {
    HasKeyAt(t.sessions, i);
    RemoveSplices(t.sessions, i);
  }

  /** Going offline, unless the same update starts a game, leaves the member without a session. */
  lemma OfflineEndsSession(t: Tables, e: PresenceEvent, now: int)
    requires !e.isBot && WentOffline(e.beforeStatus, e.afterStatus)
    requires !Classify(e.before, e.after, e.beforeStatus, e.afterStatus).StartPlaying?
    ensures !HasKey(Handle(t, e, now).tables.sessions, e.user)
  {
  }

  /** Staying on the same game (and not going offline) changes nothing at all. */
  lemma SameGameChangesNothing(t: Tables, e: PresenceEvent, now: int)
    requires FirstPlaying(e.before).Some? && FirstPlaying(e.after).Some?
    requires FirstPlaying(e.before).value.name == FirstPlaying(e.after).value.name
    requires !WentOffline(e.beforeStatus, e.afterStatus)
    ensures Handle(t, e, now) == Reaction(t, Handled, [])
  {
  }

  /** The milestone sweep keeps one session per member, unique leaderboard keys and duplicate-free milestone lists. */
  lemma SweepKeepsWellFormed(t: Tables, now: int)
    requires WellFormed(t)
    ensures WellFormed(t.(sessions := SweepAll(t.sessions, now)))
  {
    SweepAllDistinct(t.sessions, now);
    forall u | HasKey(SweepAll(t.sessions, now), u)
      ensures NoDup(Get(SweepAll(t.sessions, now), u).value.milestonesHit)
    {
      SweepAllGet(t.sessions, now, u);
      SweepSessionMarks(Get(t.sessions, u).value, now);
    }
  }
}
