/**
 * Insertion-ordered dictionaries with the semantics of Python's `dict`:
 * assigning to a key that is present keeps its position, assigning to a new
 * key appends it, and `pop` removes the key's entry.  Ordering matters to the
 * bot because the leaderboards are sorted stably and the "who plays" listing
 * follows the session table's order.
 */
module Dicts {
  import opened Wrappers

  /** The entries in insertion order; a dictionary never holds a key twice. */
  type Dict<K, V> = seq<(K, V)>

  /** `k in d`. */
  predicate HasKey<K(==), V>(d: Dict<K, V>, k: K)
  {
    d != [] && (d[0].0 == k || HasKey(d[1..], k))
  }

  /** The invariant of every dictionary the bot keeps: no key twice. */
  predicate Distinct<K(==), V>(d: Dict<K, V>)
  {
    d == [] || (!HasKey(d[1..], d[0].0) && Distinct(d[1..]))
  }

  /** `d.get(k)`: the value stored under `k`, if any. */
  function Get<K(==), V>(d: Dict<K, V>, k: K): (r: Option<V>)
    ensures r.Some? <==> HasKey(d, k)
  {
    if d == [] then None
    else if d[0].0 == k then Some(d[0].1)
    else Get(d[1..], k)
  }

  /** `d.get(k, default)`. */
  function GetOr<K(==), V>(d: Dict<K, V>, k: K, default: V): (r: V)
    ensures !HasKey(d, k) ==> r == default
    ensures HasKey(d, k) ==> Get(d, k) == Some(r)
  {
    match Get(d, k)
    case Some(v) => v
    case None => default
  }

  /**
   * `d[k] = v`: the entry of `k` is updated where it stands, or a new entry
   * goes last; every other key keeps its value and its position.
   */
  function Put<K(==,!new), V>(d: Dict<K, V>, k: K, v: V): (r: Dict<K, V>)
    ensures Get(r, k) == Some(v)
    ensures forall k' :: k' != k ==> Get(r, k') == Get(d, k')
    ensures |r| == if HasKey(d, k) then |d| else |d| + 1
    ensures forall i :: 0 <= i < |d| ==> r[i].0 == d[i].0
    ensures |r| > |d| ==> r[|d|].0 == k
  {
    if d == [] then [(k, v)]
    else if d[0].0 == k then [(k, v)] + d[1..]
    else [d[0]] + Put(d[1..], k, v)
  }

  /** `d.pop(k)` for its effect on `d`: the entry of `k` leaves and every other key keeps its value. */
  function Remove<K(==,!new), V>(d: Dict<K, V>, k: K): (r: Dict<K, V>)
    ensures Get(r, k) == None
    ensures forall k' :: k' != k ==> Get(r, k') == Get(d, k')
    ensures !HasKey(d, k) ==> r == d
  {
    if d == [] then []
    else if d[0].0 == k then Remove(d[1..], k)
    else [d[0]] + Remove(d[1..], k)
  }

  /** Every entry's key is present. */
  lemma {:induction false} HasKeyAt<K, V>(d: Dict<K, V>, i: int)
    requires 0 <= i < |d|
    ensures HasKey(d, d[i].0)
  {
    if i > 0 {
      HasKeyAt(d[1..], i - 1);
    }
  }

  /** In a dictionary, each entry's key finds that entry's value. */
  lemma {:induction false} GetAt<K, V>(d: Dict<K, V>, i: int)
    requires Distinct(d) && 0 <= i < |d|
    ensures Get(d, d[i].0) == Some(d[i].1)
  {
    if i > 0 {
      HasKeyAt(d[1..], i - 1);
      GetAt(d[1..], i - 1);
    }
  }

  /** In a dictionary, `pop` cuts out the key's one entry and leaves the others in their order. */
  lemma {:induction false} RemoveSplices<K(!new), V>(d: Dict<K, V>, i: int)
    requires Distinct(d) && 0 <= i < |d|
    ensures Remove(d, d[i].0) == d[..i] + d[i + 1..]
  {
    if i == 0 {
      assert d[..0] + d[1..] == d[1..];
    } else {
      HasKeyAt(d[1..], i - 1);
      RemoveSplices(d[1..], i - 1);
      assert d[..i] + d[i + 1..] == [d[0]] + (d[1..][..i - 1] + d[1..][i..]);
    }
  }

  /** Assignment keeps the keys unique. */
  lemma {:induction false} PutDistinct<K(!new), V>(d: Dict<K, V>, k: K, v: V)
    requires Distinct(d)
    ensures Distinct(Put(d, k, v))
  {
    if d != [] && d[0].0 != k {
      PutDistinct(d[1..], k, v);
      var r := Put(d, k, v);
      assert r[1..] == Put(d[1..], k, v);
      assert Get(r[1..], d[0].0) == Get(d[1..], d[0].0);
    } else if d != [] {
      var r := Put(d, k, v);
      assert r[1..] == d[1..];
    }
  }

  /** Removing keeps the keys unique and drops exactly one entry when the key was there. */
  lemma {:induction false} RemoveDistinct<K(!new), V>(d: Dict<K, V>, k: K)
    requires Distinct(d)
    ensures Distinct(Remove(d, k))
    ensures HasKey(d, k) ==> |Remove(d, k)| == |d| - 1
  {
    if d != [] {
      RemoveDistinct(d[1..], k);
      if d[0].0 != k {
        var r := Remove(d, k);
        assert r[1..] == Remove(d[1..], k);
        assert Get(r[1..], d[0].0) == Get(d[1..], d[0].0);
      }
    }
  }

  /** The sum of all values, as the bot's leaderboard totals add up. */
  function Sum<K>(d: Dict<K, int>): int
  {
    if d == [] then 0 else d[0].1 + Sum(d[1..])
  }

  /** Overwriting one entry changes the sum by exactly the difference. */
  lemma {:induction false} SumPut<K(!new)>(d: Dict<K, int>, k: K, v: int)
    ensures Sum(Put(d, k, v)) == Sum(d) - GetOr(d, k, 0) + v
  {
    if d != [] && d[0].0 != k {
      SumPut(d[1..], k, v);
      assert Put(d, k, v)[1..] == Put(d[1..], k, v);
    }
  }

  /** The parts `f` gives for each element, one after the other. */
  function ConcatMap<X, T>(xs: seq<X>, f: X -> seq<T>): seq<T>
  {
    if xs == [] then [] else f(xs[0]) + ConcatMap(xs[1..], f)
  }

  lemma {:induction false} ConcatMapAppend<X, T>(a: seq<X>, b: seq<X>, f: X -> seq<T>)
    ensures ConcatMap(a + b, f) == ConcatMap(a, f) + ConcatMap(b, f)
  {
    if a == [] {
      assert a + b == b;
    } else {
      ConcatMapAppend(a[1..], b, f);
      assert (a + b)[0] == a[0] && (a + b)[1..] == a[1..] + b;
    }
  }
}
