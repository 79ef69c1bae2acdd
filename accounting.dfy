/**
 * `update_leaderboard` and `update_game_leaderboard` as functions: the two
 * leaderboards map each guild to an ordered dictionary of running totals in
 * seconds, keyed by member for one and by game name for the other.
 */
module Accounting {
  import opened Wrappers
  import opened Dicts
  import opened Sessions

  type Board<K> = map<GuildId, Dict<K, int>>

  /** The entries of one guild; a guild not yet credited has none. */
  function Entries<K>(b: Board<K>, guild: GuildId): Dict<K, int>
  {
    if guild in b then b[guild] else []
  }

  /** Every guild's dictionary has unique keys. */
  predicate BoardOk<K(==)>(b: Board<K>)
  {
    forall g :: g in b ==> Distinct(b[g])
  }

  /** Adds `seconds` to one entry of one guild, creating the guild's dictionary when missing. */
  function Credit<K(==,!new)>(b: Board<K>, guild: GuildId, key: K, seconds: int): Board<K>
  {
    var inner := Entries(b, guild);
    b[guild := Put(inner, key, GetOr(inner, key, 0) + seconds)]
  }

  /**
   * What a credit does: the guild gets a dictionary if it had none, the
   * entry goes from its old value (0 when absent) to that value plus
   * `seconds`, a new key goes last, and every other guild and entry is left
   * as it was.  No clamp: zero and negative amounts are added too.
   */
  lemma CreditAdds<K(!new)>(b: Board<K>, guild: GuildId, key: K, seconds: int)
    ensures
      var r := Credit(b, guild, key, seconds);
      var inner := Entries(b, guild);
      r.Keys == b.Keys + {guild} &&
      (forall g :: g in b && g != guild ==> r[g] == b[g]) &&
      Get(r[guild], key) == Some(GetOr(inner, key, 0) + seconds) &&
      (forall k :: k != key ==> Get(r[guild], k) == Get(inner, k)) &&
      |r[guild]| == (if HasKey(inner, key) then |inner| else |inner| + 1) &&
      (forall i :: 0 <= i < |inner| ==> r[guild][i].0 == inner[i].0) &&
      (!HasKey(inner, key) ==> r[guild][|inner|].0 == key)
  {
  }

  /** Crediting keeps every guild's keys unique. */
  lemma CreditKeepsBoardOk<K(!new)>(b: Board<K>, guild: GuildId, key: K, seconds: int)
    requires BoardOk(b)
    ensures BoardOk(Credit(b, guild, key, seconds))
  {
    PutDistinct(Entries(b, guild), key, GetOr(Entries(b, guild), key, 0) + seconds);
  }

  /** All seconds credited in one guild. */
  function Total<K>(b: Board<K>, guild: GuildId): int
  {
    Sum(Entries(b, guild))
  }

  /** A credit raises its guild's total by exactly the amount and no other guild's total. */
  lemma CreditTotal<K(!new)>(b: Board<K>, guild: GuildId, key: K, seconds: int, g: GuildId)
    ensures Total(Credit(b, guild, key, seconds), g) == Total(b, g) + (if g == guild then seconds else 0)
  {
    var inner := Entries(b, guild);
    var c := Credit(b, guild, key, seconds);
    if g == guild {
      assert Entries(c, g) == Put(inner, key, GetOr(inner, key, 0) + seconds);
      SumPut(inner, key, GetOr(inner, key, 0) + seconds);
    } else {
      assert Entries(c, g) == Entries(b, g);
    }
  }
}
