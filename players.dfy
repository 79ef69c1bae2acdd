/**
 * `whoplays`: the members of the asking guild whose open session is for the
 * queried game, compared without regard to case, with how long they have
 * been playing, in the order of the session table.
 */
module Players {
  import opened Wrappers
  import opened Dicts
  import opened Text
  import opened Sessions

  /** A session matches when its game equals the query up to case and it began in the asking guild. */
  predicate Plays(info: Session, guild: GuildId, query: string)
  {
    Lower(info.game) == Lower(query) && info.guild == guild
  }

  /** The line one session contributes: the member and `now - start`, when it matches and the member is still in the guild. */
  function Listing(entry: (UserId, Session), guild: GuildId, query: string, members: set<UserId>, now: int)
    : seq<(UserId, int)>
  {
    if Plays(entry.1, guild, query) && entry.0 in members then [(entry.0, now - entry.1.start)] else []
  }

  /** `Listing` for one query, as a function of the table entry. */
  function ListingOf(guild: GuildId, query: string, members: set<UserId>, now: int): ((UserId, Session)) -> seq<(UserId, int)>
  {
    entry => Listing(entry, guild, query, members, now)
  }

  /** Every line of the reply, session by session; an empty list is the "No one is currently playing" answer. */
  function NowPlaying(d: Dict<UserId, Session>, guild: GuildId, query: string, members: set<UserId>, now: int)
    : seq<(UserId, int)>
  {
    ConcatMap(d, ListingOf(guild, query, members, now))
  }

  /**
   * A member is listed, with a given duration, exactly when they have a
   * session that matches, they are still in the guild, and the duration is
   * the time since that session's start.
   */
  lemma {:induction false} PlayingExactly(d: Dict<UserId, Session>, guild: GuildId, query: string,
                                          members: set<UserId>, now: int, u: UserId, seconds: int)
    requires Distinct(d)
    ensures (u, seconds) in NowPlaying(d, guild, query, members, now) <==>
      HasKey(d, u) && u in members && Plays(Get(d, u).value, guild, query) &&
      seconds == now - Get(d, u).value.start
  {
    if d != [] {
      PlayingExactly(d[1..], guild, query, members, now, u, seconds);
      assert NowPlaying(d, guild, query, members, now)
        == Listing(d[0], guild, query, members, now) + NowPlaying(d[1..], guild, query, members, now);
    }
  }

  /** A member appears at most once in the reply. */
  lemma {:induction false} PlayingListsOnce(d: Dict<UserId, Session>, guild: GuildId, query: string,
                                            members: set<UserId>, now: int)
    requires Distinct(d)
    ensures
      var r := NowPlaying(d, guild, query, members, now);
      forall i, j :: 0 <= i < j < |r| ==> r[i].0 != r[j].0
  {
    if d != [] {
      PlayingListsOnce(d[1..], guild, query, members, now);
      var first := Listing(d[0], guild, query, members, now);
      var rest := NowPlaying(d[1..], guild, query, members, now);
      var r := NowPlaying(d, guild, query, members, now);
      assert r == first + rest;
      forall i, j | 0 <= i < j < |r| ensures r[i].0 != r[j].0 {
        assert r[j] == rest[j - |first|];
        if i < |first| {
          assert r[i].0 == d[0].0;
          assert r[j] in rest;
          PlayingExactly(d[1..], guild, query, members, now, r[j].0, r[j].1);
        } else {
          assert r[i] == rest[i - |first|];
        }
      }
    }
  }
}
