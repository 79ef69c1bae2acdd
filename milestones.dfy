/**
 * `check_milestones`: the sweep that, for every open session, marks each
 * hour threshold the member has reached and not yet been told about.
 */
module Milestones {
  import opened Wrappers
  import opened Dicts
  import opened Sessions

  /** The keys of the milestone messages, in their order: one to five hours, in minutes. */
  const Thresholds: seq<int> := [60, 120, 180, 240, 300]

  predicate NoDup(s: seq<int>)
  {
    forall i, j :: 0 <= i < j < |s| ==> s[i] != s[j]
  }

  /** `int((now - start).total_seconds() // 60)`: whole minutes played, rounded down. */
  function MinutesPlayed(start: int, now: int): (m: int)
    ensures m * 60 <= now - start < m * 60 + 60
  {
    (now - start) / 60
  }

  /**
   * The thresholds one pass over `ts` appends to `hit`, in the order of `ts`:
   * each reached (`<= minutes`), absent from the list as it stands, and
   * appended once.
   */
  function NewlyReached(hit: seq<int>, ts: seq<int>, minutes: int): (r: seq<int>)
    ensures forall t :: t in r ==> t in ts && t <= minutes && t !in hit
    ensures forall t :: t in ts && t <= minutes ==> t in hit || t in r
    ensures NoDup(r)
    decreases |ts|
  {
    if ts == [] then []
    else
      var prev := NewlyReached(hit, ts[..|ts| - 1], minutes);
      var t := ts[|ts| - 1];
      assert forall x :: x in ts[..|ts| - 1] ==> x in ts;
      assert ts == ts[..|ts| - 1] + [t];
      if t <= minutes && t !in hit + prev then prev + [t] else prev
  }

  predicate Increasing(s: seq<int>)
  {
    forall i, j :: 0 <= i < j < |s| ==> s[i] < s[j]
  }

  /** Over increasing thresholds, a pass appends in increasing order, so messages go out smallest first. */
  lemma {:induction false} NewlyReachedIncreasing(hit: seq<int>, ts: seq<int>, minutes: int)
    requires Increasing(ts)
    ensures Increasing(NewlyReached(hit, ts, minutes))
    decreases |ts|
  {
    if ts != [] {
      var init := ts[..|ts| - 1];
      var t := ts[|ts| - 1];
      NewlyReachedIncreasing(hit, init, minutes);
      var prev := NewlyReached(hit, init, minutes);
      forall x | x in prev ensures x < t {
        var k :| 0 <= k < |init| && init[k] == x;
        assert ts[k] == x;
      }
      if t <= minutes && t !in hit + prev {
        var r := prev + [t];
        assert NewlyReached(hit, ts, minutes) == r;
        forall i, j | 0 <= i < j < |r| ensures r[i] < r[j] {
          if j == |prev| { assert r[i] in prev; }
        }
      }
    }
  }

  /** One session's newly reached thresholds, and so its messages, come smallest first, as the thresholds are listed. */
  lemma SweepMarksInOrder(info: Session, now: int)
    ensures Increasing(NewlyReached(info.milestonesHit, Thresholds, MinutesPlayed(info.start, now)))
  {
    NewlyReachedIncreasing(info.milestonesHit, Thresholds, MinutesPlayed(info.start, now));
  }

  /** Once every reached threshold is marked, a pass appends nothing. */
  lemma {:induction false} NothingNewOnceAllHit(hit: seq<int>, ts: seq<int>, minutes: int)
    requires forall t :: t in ts && t <= minutes ==> t in hit
    ensures NewlyReached(hit, ts, minutes) == []
    decreases |ts|
  {
    if ts != [] {
      assert forall x :: x in ts[..|ts| - 1] ==> x in ts;
      NothingNewOnceAllHit(hit, ts[..|ts| - 1], minutes);
    }
  }

  /** One session after the sweep: its milestone list followed by the thresholds newly reached. */
  function SweepSession(info: Session, now: int): Session
  {
    info.(milestonesHit := info.milestonesHit + NewlyReached(info.milestonesHit, Thresholds, MinutesPlayed(info.start, now)))
  }

  /**
   * What the sweep does to one session: only `milestonesHit` changes; it
   * grows at its end, it then holds every threshold the minutes played
   * reach, it gains nothing else, and it still holds no threshold twice.
   * A threshold is marked whether or not a message could be sent.
   */
  lemma SweepSessionMarks(info: Session, now: int)
    ensures
      var r := SweepSession(info, now);
      var minutes := MinutesPlayed(info.start, now);
      r.start == info.start && r.game == info.game && r.guild == info.guild && r.channel == info.channel &&
      info.milestonesHit <= r.milestonesHit &&
      (forall t :: t in Thresholds && t <= minutes ==> t in r.milestonesHit) &&
      (forall t :: t in r.milestonesHit ==> t in info.milestonesHit || (t in Thresholds && t <= minutes)) &&
      (NoDup(info.milestonesHit) ==> NoDup(r.milestonesHit))
  {
    var added := NewlyReached(info.milestonesHit, Thresholds, MinutesPlayed(info.start, now));
    assert forall i :: 0 <= i < |added| ==> added[i] in added;
  }

  /** Sweeping again at the same instant changes nothing. */
  lemma SweepIdempotent(info: Session, now: int)
    ensures SweepSession(SweepSession(info, now), now) == SweepSession(info, now)
  {
    var once := SweepSession(info, now);
    SweepSessionMarks(info, now);
    NothingNewOnceAllHit(once.milestonesHit, Thresholds, MinutesPlayed(once.start, now));
  }

  /** The sweep over the whole session table: same members, same order, each session swept. */
  function SweepAll(d: Dict<UserId, Session>, now: int): (r: Dict<UserId, Session>)
    ensures |r| == |d|
    ensures forall i :: 0 <= i < |d| ==> r[i] == (d[i].0, SweepSession(d[i].1, now))
  {
    if d == [] then [] else [(d[0].0, SweepSession(d[0].1, now))] + SweepAll(d[1..], now)
  }

  /** No session is added or removed by the sweep, and each one found is the swept one. */
  lemma {:induction false} SweepAllGet(d: Dict<UserId, Session>, now: int, u: UserId)
    ensures HasKey(SweepAll(d, now), u) <==> HasKey(d, u)
    ensures HasKey(d, u) ==> Get(SweepAll(d, now), u) == Some(SweepSession(Get(d, u).value, now))
  {
    if d != [] {
      SweepAllGet(d[1..], now, u);
      assert SweepAll(d, now)[1..] == SweepAll(d[1..], now);
    }
  }

  /** The sweep keeps the table's keys unique. */
  lemma {:induction false} SweepAllDistinct(d: Dict<UserId, Session>, now: int)
    requires Distinct(d)
    ensures Distinct(SweepAll(d, now))
  {
    if d != [] {
      SweepAllDistinct(d[1..], now);
      SweepAllGet(d[1..], now, d[0].0);
      assert SweepAll(d, now)[1..] == SweepAll(d[1..], now);
    }
  }

  /** The (member, threshold) pairs for the given thresholds, in order. */
  function Tag(u: UserId, ts: seq<int>): seq<(UserId, int)>
  {
    seq(|ts|, k requires 0 <= k < |ts| => (u, ts[k]))
  }

  /** Tagging one more threshold adds one message at the end. */
  lemma TagAppend(u: UserId, ts: seq<int>, t: int)
    ensures Tag(u, ts + [t]) == Tag(u, ts) + [(u, t)]
  {
    assert forall k :: 0 <= k < |ts| ==> (ts + [t])[k] == ts[k];
  }

  /**
   * The messages one session's sweep sends: its newly reached thresholds,
   * when the member, the guild and the stored channel all still resolve
   * (`reachable`), and none otherwise.
   */
  function Announce(u: UserId, info: Session, now: int, reachable: set<UserId>): seq<(UserId, int)>
  {
    if u in reachable && info.channel.Some? then
      Tag(u, NewlyReached(info.milestonesHit, Thresholds, MinutesPlayed(info.start, now)))
    else []
  }

  /** `Announce` at one instant, as a function of the table entry. */
  function AnnounceOf(now: int, reachable: set<UserId>): ((UserId, Session)) -> seq<(UserId, int)>
  {
    (entry: (UserId, Session)) => Announce(entry.0, entry.1, now, reachable)
  }

  /** The messages of a whole sweep, session by session in table order. */
  function Announcements(d: Dict<UserId, Session>, now: int, reachable: set<UserId>): seq<(UserId, int)>
  {
    ConcatMap(d, AnnounceOf(now, reachable))
  }

  /**
   * Conversely, a reachable member whose session has a channel is told of
   * every threshold the minutes played reach and the session had not hit.
   */
  lemma {:induction false} ReachedAreAnnounced(d: Dict<UserId, Session>, now: int, reachable: set<UserId>,
                                               u: UserId, t: int)
    requires Distinct(d) && HasKey(d, u) && u in reachable && Get(d, u).value.channel.Some?
    requires t in Thresholds && t <= MinutesPlayed(Get(d, u).value.start, now)
    requires t !in Get(d, u).value.milestonesHit
    ensures (u, t) in Announcements(d, now, reachable)
  {
    var first := Announce(d[0].0, d[0].1, now, reachable);
    assert Announcements(d, now, reachable) == first + Announcements(d[1..], now, reachable);
    if d[0].0 == u {
      var added := NewlyReached(d[0].1.milestonesHit, Thresholds, MinutesPlayed(d[0].1.start, now));
      var k :| 0 <= k < |added| && added[k] == t;
      assert first[k] == (u, t);
    } else {
      ReachedAreAnnounced(d[1..], now, reachable, u, t);
    }
  }

  /**
   * Every message the sweep sends names a member with an open session, a
   * threshold that session had not hit, and that the swept session now holds.
   */
  lemma {:induction false} AnnouncedAreMarked(d: Dict<UserId, Session>, now: int, reachable: set<UserId>,
                                              u: UserId, t: int)
    requires Distinct(d)
    requires (u, t) in Announcements(d, now, reachable)
    ensures u in reachable && HasKey(d, u) && Get(d, u).value.channel.Some?
    ensures t !in Get(d, u).value.milestonesHit
    ensures t in SweepSession(Get(d, u).value, now).milestonesHit
  {
    var first := Announce(d[0].0, d[0].1, now, reachable);
    assert Announcements(d, now, reachable) == first + Announcements(d[1..], now, reachable);
    if (u, t) in first {
      var k :| 0 <= k < |first| && first[k] == (u, t);
    } else {
      AnnouncedAreMarked(d[1..], now, reachable, u, t);
    }
  }
}
