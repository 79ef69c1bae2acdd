/**
 * The `leaderboard` and `topgames` replies: a guild's entries sorted by total
 * seconds, largest first, by a stable sort (equal totals keep their
 * insertion order), of which the first ten are shown.
 */
module Ranking {
  import opened Dicts
  import opened Sessions
  import opened Accounting

  /** At most this many entries are shown. */
  const Shown := 10

  predicate NonIncreasing<K>(s: seq<(K, int)>)
  {
    forall i, j :: 0 <= i < j < |s| ==> s[i].1 >= s[j].1
  }

  /** The entries whose total is `v`, in the order they appear. */
  function WithTotal<K>(s: seq<(K, int)>, v: int): seq<(K, int)>
  {
    if s == [] then [] else (if s[0].1 == v then [s[0]] else []) + WithTotal(s[1..], v)
  }

  /**
   * Places `x` before the first entry whose total does not exceed its own,
   * so that it precedes every equal total that came later in the input.
   */
  function Insert<K>(x: (K, int), s: seq<(K, int)>): (r: seq<(K, int)>)
    ensures multiset(r) == multiset(s) + multiset{x}
  {
    if s == [] || s[0].1 <= x.1 then [x] + s
    else
      assert s == [s[0]] + s[1..];
      [s[0]] + Insert(x, s[1..])
  }

  lemma {:induction false} InsertKeepsOrder<K>(x: (K, int), s: seq<(K, int)>)
    requires NonIncreasing(s)
    ensures NonIncreasing(Insert(x, s))
  {
    if s != [] && s[0].1 > x.1 {
      var rest := Insert(x, s[1..]);
      InsertKeepsOrder(x, s[1..]);
      forall y | y in rest ensures s[0].1 >= y.1 {
        assert y in multiset(rest);
        assert y == x || y in multiset(s[1..]);
      }
      var r := [s[0]] + rest;
      forall i, j | 0 <= i < j < |r| ensures r[i].1 >= r[j].1 {
        if i > 0 { assert r[i] == rest[i - 1] && r[j] == rest[j - 1]; }
        else { assert r[j] in rest; }
      }
    }
  }

  lemma {:induction false} InsertWithTotal<K>(x: (K, int), s: seq<(K, int)>, v: int)
    ensures WithTotal(Insert(x, s), v) == (if x.1 == v then [x] else []) + WithTotal(s, v)
  {
    if s == [] || s[0].1 <= x.1 {
      assert ([x] + s)[1..] == s;
    } else {
      var rest := Insert(x, s[1..]);
      InsertWithTotal(x, s[1..], v);
      assert ([s[0]] + rest)[1..] == rest;
    }
  }

  /**
   * `sorted(items, key=total, reverse=True)`: a permutation, largest total
   * first, and for every total the entries that have it keep their order.
   */
  function SortByTotal<K>(s: seq<(K, int)>): (r: seq<(K, int)>)
    ensures multiset(r) == multiset(s)
    ensures NonIncreasing(r)
    ensures forall v :: WithTotal(r, v) == WithTotal(s, v)
  {
    if s == [] then []
    else
      var rest := SortByTotal(s[1..]);
      assert s == [s[0]] + s[1..];
      InsertKeepsOrder(s[0], rest);
      assert forall v :: WithTotal(Insert(s[0], rest), v) == WithTotal(s, v) by {
        forall v ensures WithTotal(Insert(s[0], rest), v) == WithTotal(s, v) {
          InsertWithTotal(s[0], rest, v);
        }
      }
      Insert(s[0], rest)
  }

  /** Filtering distributes over concatenation. */
  lemma {:induction false} WithTotalAppend<K>(a: seq<(K, int)>, b: seq<(K, int)>, v: int)
    ensures WithTotal(a + b, v) == WithTotal(a, v) + WithTotal(b, v)
  {
    if a == [] {
      assert a + b == b;
    } else {
      WithTotalAppend(a[1..], b, v);
      assert (a + b)[1..] == a[1..] + b;
    }
  }

  /** What a leaderboard command answers. */
  datatype Reply<K> = NoData | Ranked(entries: seq<(K, int)>)

  /**
   * The reply for one guild: "no data" when the guild was never credited or
   * its dictionary is empty, otherwise the first ten entries of the stable
   * sort by descending total.
   */
  function Top<K>(b: Board<K>, guild: GuildId): (r: Reply<K>)
    ensures r.NoData? <==> Entries(b, guild) == []
    ensures r.Ranked? ==> 1 <= |r.entries| <= Shown
    ensures r.Ranked? ==> |r.entries| == Shown || |r.entries| == |Entries(b, guild)|
    ensures r.Ranked? ==> NonIncreasing(r.entries)
    ensures r.Ranked? ==> multiset(r.entries) <= multiset(Entries(b, guild))
  {
    var d := Entries(b, guild);
    if d == [] then NoData
    else
      var sorted := SortByTotal(d);
      var n := if |sorted| < Shown then |sorted| else Shown;
      assert sorted == sorted[..n] + sorted[n..];
      assert multiset(sorted) == multiset(sorted[..n]) + multiset(sorted[n..]);
      Ranked(sorted[..n])
  }

  /** No entry left off the reply has a larger total than one shown. */
  lemma TopShowsLargest<K>(b: Board<K>, guild: GuildId, shown: (K, int), omitted: (K, int))
    requires Top(b, guild).Ranked?
    requires shown in Top(b, guild).entries
    requires omitted in Entries(b, guild) && omitted !in Top(b, guild).entries
    ensures shown.1 >= omitted.1
  {
    var sorted := SortByTotal(Entries(b, guild));
    var n := |Top(b, guild).entries|;
    assert Top(b, guild).entries == sorted[..n];
    assert omitted in multiset(sorted);
    var j :| 0 <= j < |sorted| && sorted[j] == omitted;
    var i :| 0 <= i < n && sorted[i] == shown;
  }

  /**
   * Ties keep insertion order: the shown entries with any one total are the
   * first entries with that total in the guild's dictionary.
   */
  lemma TopKeepsTies<K>(b: Board<K>, guild: GuildId, v: int)
    requires Top(b, guild).Ranked?
    ensures WithTotal(Top(b, guild).entries, v) <= WithTotal(Entries(b, guild), v)
  {
    var sorted := SortByTotal(Entries(b, guild));
    var n := |Top(b, guild).entries|;
    assert sorted == sorted[..n] + sorted[n..];
    WithTotalAppend(sorted[..n], sorted[n..], v);
  }
}
