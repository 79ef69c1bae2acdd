# Presence bot core, modelled in Dafny

This project models the play-tracking core of `presence_bot.py`, a chat bot
that watches members' presence updates. It keeps four in-memory tables:

- the **session table**: one open play session per member, holding its start,
  its game, the hour milestones already marked, and the guild and
  announcement channel seen when it began;
- the **member leaderboard**: seconds played per member, per guild;
- the **game leaderboard**: seconds played per game, per guild;
- a table of **game-role bindings**: per guild, a lower-cased game name bound
  to a role.

The operations modelled:

- the `on_presence_update` handler, with its start, stop and switch branches;
- `update_leaderboard` and `update_game_leaderboard`;
- the role decision of `handle_game_role`;
- the `check_milestones` sweep;
- `format_duration`;
- the ranking behind `leaderboard` and `topgames`;
- the `whoplays` scan;
- `add_game_role`.

The model has two layers:

- **Pure layer.** Each operation is a function over values:
  - `Tracking.Handle`, `Start`, `Stop` and `Switch` on the `Tables` record;
  - `Accounting.Credit`;
  - `Milestones.SweepAll` and `Announcements`;
  - `Players.NowPlaying`;
  - `Ranking.Top`;
  - `Roles.Bind` and `RoleFor`.
- **Imperative layer.** `Bot.Tracker` is a class whose fields are the four
  tables. Its methods change the fields step by step, as the handlers do.
  Each method is proved to leave exactly the state the function describes.
  `OnPresenceUpdate`, `AddGameRole` and `CheckMilestones` also keep the
  class invariant `Valid`, which has two parts:
  - every dictionary has unique keys and no milestone list holds a
    threshold twice;
  - in every guild, the member leaderboard and the game leaderboard add up
    to the same total.

Python dictionaries keep insertion order, and the order is visible in three
places: ties in the stable sort of the leaderboards, the order of the
`whoplays` listing, and the order of milestone messages across sessions. The per-guild dictionaries and the session table are
therefore ordered association lists (`Dicts.Dict`) with Python's rules:

- assigning to an existing key keeps its place;
- a new key goes last;
- `pop` removes the entry.

The outer tables keyed by guild are Dafny maps, because their order is
never observed.

Time is an integer number of seconds, `now`, passed in by the caller. Two
kinds of outside information are parameters too:

- what the chat platform can still resolve:
  - the roles a guild still has (`liveRoles`);
  - the members still in the guild (`members`);
  - the members whose guild, membership and channel resolve for a
    milestone message (`reachable`);
- the guild's announcement channel, as it is found when an update arrives
  (`PresenceEvent.channel`).

Choices the model follows from the code:

- **Crediting.** A stop or switch credits the time to the guild the update
  arrived for (`after.guild`), not to the guild stored in the session
  (presence_bot.py:190-191 and 205-206).
- **Switch.** A switch revokes the role of the game named in the update's
  "before" side, but credits the time to the game stored in the session
  (presence_bot.py:206-208).
- **Switch without a session.** The `pop` without a default raises a
  `KeyError` before anything changes (presence_bot.py:200). The model
  returns the outcome `MissingSession` and leaves the tables unchanged.
- **Milestones.** A threshold is appended to the session's list even when
  the member, guild or channel does not resolve and no message goes out
  (presence_bot.py:234-241).
- **No clamp.** Durations are `now - start` and are credited as they are,
  even when zero or negative.
- **No double-start guard.** A second start overwrites the open session.

## Model

| member | source | states |
|---|---|---|
| Duration.FormatDuration | presence_bot.py:84-92 | Seconds alone below a minute; hours and minutes from 3600 seconds on, with the seconds dropped being under a minute; otherwise minutes (1-59) and seconds (0-59) that add up to the input |
| Dicts.Get | presence_bot.py:103 | A lookup finds a value exactly when the key is present |
| Dicts.GetOr | presence_bot.py:103 | `get(key, 0)`: the default when the key is missing, otherwise the stored value |
| Dicts.Put | presence_bot.py:103 | Dict assignment: the key maps to the new value, every other key keeps its value and position, and a new key is appended last |
| Dicts.Remove | presence_bot.py:185 | `pop`: the key is gone, every other key keeps its value, and a missing key leaves the dict unchanged |
| Dicts.GetAt | presence_bot.py:103 | In a dict with unique keys, each entry's key looks up that entry's value, which ties lookups to the positions the leaderboards are sorted by |
| Dicts.RemoveSplices | presence_bot.py:185 | In a dict with unique keys, `pop` cuts out exactly the key's entry and keeps the others in their order |
| Dicts.PutDistinct | presence_bot.py:103 | Assignment never creates a duplicate key |
| Dicts.RemoveDistinct | presence_bot.py:185 | `pop` keeps keys unique and removes exactly one entry when the key is present |
| Dicts.SumPut | presence_bot.py:103 | Overwriting one entry changes the dict's total by the new value minus the old one |
| Accounting.Credit | presence_bot.py:95-117 | The shared body of `update_leaderboard` and `update_game_leaderboard`; its contract is `Accounting.CreditAdds` and `Accounting.CreditTotal` |
| Accounting.CreditAdds | presence_bot.py:95-117 | A credit creates the guild's dict when it is missing and raises the entry from its old value (0 if absent) by exactly `seconds`; a new key goes last, and every other guild and entry is unchanged |
| Accounting.CreditKeepsBoardOk | presence_bot.py:100-103 | Crediting keeps every guild's keys unique |
| Accounting.CreditTotal | presence_bot.py:103 | A credit raises its own guild's total by the amount and no other guild's total |
| Bot.Tracker.UpdateLeaderboard | presence_bot.py:95-104 | The method leaves the member leaderboard equal to `Credit` of the old one and changes no other table |
| Bot.Tracker.UpdateGameLeaderboard | presence_bot.py:108-117 | The method leaves the game leaderboard equal to `Credit` of the old one and changes no other table |
| Roles.Bind | presence_bot.py:322-330 | Binding adds the guild if missing and maps the lower-cased name to the role; every other guild and name is unchanged |
| Bot.Tracker.AddGameRole | presence_bot.py:322-330 | The role table becomes `Bind` of the old one, the other tables are unchanged, and the class invariant holds |
| Roles.RoleFor | presence_bot.py:122-132 | The grant-or-revoke decision of `handle_game_role`; its contract is `Roles.RoleForDecides`, `Roles.NoBindingsNoDecision`, `Roles.BindThenResolve` and `Roles.BindKeepsOtherDecisions` |
| Roles.RoleForDecides | presence_bot.py:124-132 | A role is decided exactly when the guild has bindings, the name is non-empty, its lower-cased form is bound and the bound role still exists; in every other case nothing happens |
| Roles.NoBindingsNoDecision | presence_bot.py:125-126 | With no bindings at all, as the bot starts, no game has a role to grant or revoke |
| Roles.BindThenResolve | presence_bot.py:122-132 | After binding, the role decision for any non-empty spelling that lower-cases to the same key is that role, provided the guild still has it |
| Roles.BindKeepsOtherDecisions | presence_bot.py:122-132 | Binding one name changes no role decision for another name or another guild |
| Text.Lower | presence_bot.py:128 | `str.lower` on ASCII letters; its contract is `Text.LowerFolds` and `Text.LowerIdempotent` |
| Text.LowerFolds | presence_bot.py:128 | Lower-casing keeps the length, turns each upper-case ASCII letter into its lower-case form and keeps every other character |
| Text.LowerIdempotent | presence_bot.py:128 | Lower-casing a lower-cased name changes nothing, so a stored key matches itself |
| Presence.FirstPlaying | presence_bot.py:166-167 | None exactly when no activity is "playing"; otherwise the value is at an index with no "playing" activity before it |
| Presence.Classify | presence_bot.py:169-199 | Each of the start, stop and switch branches is taken exactly when its condition holds, tested in the handler's order, with the game names taken from the first "playing" activities |
| Tracking.Start | presence_bot.py:169-179 | The member's session becomes a fresh one (an open one is overwritten); no other session and no leaderboard changes; the game's role is granted as `GrantFor` decides |
| Tracking.Stop | presence_bot.py:183-194 | With a session, it is removed, its time is credited to the member and to its game, and its game's role is revoked; without one, nothing changes |
| Tracking.Switch | presence_bot.py:199-219 | The switch reports a missing session exactly when there is none, and then nothing changes; role bindings are never touched |
| Tracking.SwitchKeepsOthers | presence_bot.py:200-211 | A switch leaves every other member's session as it was |
| Tracking.SwitchReopens | presence_bot.py:210-217 | After a switch, the member's session is a fresh one for the new game and sits at the end of the table |
| Tracking.SwitchCredits | presence_bot.py:200-219 | The popped session's time is credited to the member and to the stored game; the "before" game's role is revoked and the new game's role granted |
| Tracking.Handle | presence_bot.py:152-221 | Updates from bots change nothing; a missing session on a switch leaves the tables unchanged; role bindings are never touched |
| Tracking.StartKeepsWellFormed | presence_bot.py:169-178 | Starting keeps one session per member and duplicate-free milestone lists |
| Tracking.StopKeepsWellFormed | presence_bot.py:183-194 | Stopping keeps the tables' keys unique |
| Tracking.ReopenKeepsWellFormed | presence_bot.py:200-218 | Popping, crediting and writing a fresh session keeps the tables' keys unique |
| Tracking.SwitchKeepsWellFormed | presence_bot.py:199-219 | Switching keeps the tables' keys unique |
| Tracking.HandleKeepsWellFormed | presence_bot.py:152-221 | Every presence update keeps one session per member, unique leaderboard keys and duplicate-free milestone lists |
| Tracking.MilestonesOkPut | presence_bot.py:171-177 | Writing a session with a duplicate-free milestone list keeps every list duplicate-free |
| Tracking.MilestonesOkRemove | presence_bot.py:185 | Popping a session keeps every other milestone list duplicate-free |
| Tracking.CreditPairKeepsBalanced | presence_bot.py:190-191 | Crediting the same seconds to a member and to a game in one guild keeps the two leaderboards' totals equal in every guild |
| Tracking.StopKeepsBalanced | presence_bot.py:183-191 | A stop keeps both leaderboards' per-guild totals equal |
| Tracking.ReopenKeepsBalanced | presence_bot.py:205-206 | The credits of a switch keep the per-guild totals equal |
| Tracking.SwitchKeepsBalanced | presence_bot.py:199-206 | A switch keeps the per-guild totals equal |
| Tracking.HandleKeepsBalanced | presence_bot.py:152-221 | Every presence update keeps, in every guild, the member leaderboard total equal to the game leaderboard total |
| Tracking.StartThenStop | presence_bot.py:169-191 | A start at `t0` followed by a stop at `t1` leaves no session and adds `t1 - t0` to the member's entry and to the game's entry |
| Tracking.StartThenSwitch | presence_bot.py:169-219 | A start at `t0` then a switch at `t1` is handled, leaves a fresh session for the new game, and adds `t1 - t0` to the member's entry and to the started game's entry |
| Tracking.StartKeepsPlaces | presence_bot.py:171-177 | A start overwrites an open session where it stands, or adds the new one at the end of the table |
| Tracking.StopKeepsOrder | presence_bot.py:184-185 | A stop cuts the member's session out of the table and keeps every other session in its order |
| Tracking.OfflineEndsSession | presence_bot.py:183-185 | Going offline, unless the same update starts a game, leaves the member without a session |
| Tracking.SameGameChangesNothing | presence_bot.py:166-199 | Staying on the same game without going offline changes nothing |
| Tracking.SweepKeepsWellFormed | presence_bot.py:226-242 | The milestone sweep keeps the tables well formed |
| Bot.Tracker.constructor | presence_bot.py:54-66 | The bot starts with empty tables, which satisfy the invariant |
| Bot.Tracker.OnPresenceUpdate | presence_bot.py:152-221 | The handler leaves the tables, outcome and role changes that `Handle` gives, and keeps the invariant |
| Bot.Tracker.StartSession | presence_bot.py:169-179 | The start branch as a method equals `Start` |
| Bot.Tracker.EndSession | presence_bot.py:183-194 | The stop branch as a method equals `Stop` |
| Bot.Tracker.SwitchSession | presence_bot.py:199-219 | The switch branch as a method equals `Switch`, including the missing-session outcome |
| Milestones.MinutesPlayed | presence_bot.py:230 | Whole minutes played, rounded down: `m * 60 <= now - start < m * 60 + 60` |
| Milestones.NewlyReached | presence_bot.py:232-241 | Only thresholds that are reached and not yet hit are added, each at most once, and afterwards every reached threshold is hit |
| Milestones.NewlyReachedIncreasing | presence_bot.py:232 | Over increasing thresholds, the newly reached ones are appended in increasing order |
| Milestones.SweepMarksInOrder | presence_bot.py:232-241 | A session's new milestones, and so its messages, come in the listed order of the thresholds, smallest first |
| Milestones.NothingNewOnceAllHit | presence_bot.py:233 | Once every reached threshold is hit, a pass adds nothing |
| Milestones.SweepSession | presence_bot.py:229-241 | The sweep of one session; its contract is `Milestones.SweepSessionMarks` and `Milestones.SweepIdempotent` |
| Milestones.SweepSessionMarks | presence_bot.py:228-241 | The sweep only extends a session's milestone list, with exactly the reached thresholds it lacked, keeps it duplicate-free and changes no other field |
| Milestones.SweepIdempotent | presence_bot.py:226-241 | Sweeping twice at the same instant is sweeping once |
| Milestones.SweepAll | presence_bot.py:228 | Same members in the same order, each session swept |
| Milestones.SweepAllGet | presence_bot.py:228-241 | The sweep neither adds nor removes a session, and each one it finds is the swept one |
| Milestones.SweepAllDistinct | presence_bot.py:228 | The sweep keeps one session per member |
| Milestones.Announce | presence_bot.py:233-239 | The messages one session's sweep sends; its contract is `Milestones.AnnouncedAreMarked`, `Milestones.ReachedAreAnnounced` and `Milestones.SweepMarksInOrder` |
| Milestones.Announcements | presence_bot.py:228-239 | The messages of a whole sweep, in table order; its contract is `Milestones.AnnouncedAreMarked` and `Milestones.ReachedAreAnnounced` |
| Milestones.ReachedAreAnnounced | presence_bot.py:232-239 | A reachable member whose session has a channel gets a message for every threshold reached and not yet hit |
| Milestones.AnnouncedAreMarked | presence_bot.py:233-241 | Every message names a reachable member with a session that has a stored channel, for a threshold that session had not hit and that the swept session now holds |
| Bot.Tracker.CheckMilestones | presence_bot.py:226-242 | The session table becomes `SweepAll` of the old one, the messages sent are `Announcements`, the leaderboards and roles are unchanged, and the invariant holds |
| Bot.Tracker.MarkMilestones | presence_bot.py:229-241 | The inner loop over the thresholds produces the swept session and that session's messages |
| Ranking.Insert | presence_bot.py:253 | Insertion adds exactly one element to the multiset |
| Ranking.InsertKeepsOrder | presence_bot.py:253 | Inserting into a non-increasing list keeps it non-increasing |
| Ranking.InsertWithTotal | presence_bot.py:253 | The inserted entry goes before every later entry with an equal total |
| Ranking.SortByTotal | presence_bot.py:253 | `sorted(..., reverse=True)` is a permutation, non-increasing by total, and stable: entries with equal totals keep their input order |
| Ranking.WithTotalAppend | presence_bot.py:258 | Filtering by total distributes over concatenation |
| Ranking.Top | presence_bot.py:249-258 | No data exactly when the guild has no entries; otherwise 1 to 10 entries (10, or all of them), sorted, taken from the guild's dict |
| Ranking.TopShowsLargest | presence_bot.py:253-258 | No entry left off the reply has a larger total than an entry shown |
| Ranking.TopKeepsTies | presence_bot.py:272-282 | The entries shown with any one total are the first entries with that total in insertion order |
| Players.NowPlaying | presence_bot.py:299-305 | The `whoplays` filter over the session table; its contract is `Players.PlayingExactly` and `Players.PlayingListsOnce` |
| Players.PlayingExactly | presence_bot.py:299-305 | A member is listed, with a given duration, exactly when their session's game matches case-insensitively, the session is in the asking guild, they are still a member, and the duration is `now - start` |
| Players.PlayingListsOnce | presence_bot.py:299-305 | No member is listed twice |
| Bot.Tracker.WhoPlays | presence_bot.py:293-305 | The scan over the session table returns exactly `NowPlaying`, in table order |

## Left out

- Discord I/O is not modelled. This covers the start, stop, switch, online,
  offline and milestone messages, the text of the leaderboard, topgames and
  whoplays replies, and their embeds and emoji. Milestone messages are
  modelled as (member, threshold) pairs.
- `format_duration` returns the parts of the text (`Duration.Shown`), not
  the string itself. Seconds are integers, so `int(...)` of a float is not
  modelled.
- Floating-point seconds from `total_seconds()` and datetime arithmetic are
  not modelled. Time is an integer number of seconds supplied by the caller.
- Switch: the source reads the clock twice, once for the duration and once
  for the new start. The model uses one `now` for both.
- JSON persistence (`save_data`, `load_data`, `setup_data_files`) is not
  modelled. The in-memory tables are the state.
- The loader's conversions (presence_bot.py:56-62) are not modelled. They
  turn a reloaded session's start into a datetime and its milestones into a
  set, but the later code expects an ISO string and a list. The model starts
  from empty tables.
- Role API calls (`get_role`, `add_roles`, `remove_roles`) and their
  exceptions are not modelled. The roles a guild still has are the
  `liveRoles` parameter, and the role changes are returned as a list of
  decisions.
- The platform's lookups are parameters rather than modelled:
  - `get_guild`, `get_member` and `get_channel` in the sweep are `reachable`;
  - `get_member` in `whoplays` is `members`;
  - the announcement channel lookup is the event's `channel`.
- Sends are assumed to succeed. In the source, a `channel.send` that raises
  (`Forbidden`, `HTTPException`) is not caught. A failing milestone send
  (presence_bot.py:239) leaves that threshold unmarked and leaves the
  `@tasks.loop` coroutine. The loop task then stops, and only `on_ready`
  (presence_bot.py:149) starts it again, so later sweeps stop too. A failing
  status announcement (presence_bot.py:162, 164) ends `on_presence_update`
  before the start, stop or switch runs.
- Concurrency is not modelled. Handlers are atomic; interleavings at `await`
  points between the handlers and the sweep are not.
- The permission gate on `addgamerole` and its error reply are not modelled.
- Text.Lower: folds only the ASCII letters; the Unicode case folding of
  `str.lower` is not modelled, so `Text.LowerFolds` states ASCII folding only.
- The code has no periodic flush, no weekly reset job, no credit clamp and no
  guard against a double start, so the model has none either.

