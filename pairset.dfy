/**
 * A named set of flashcards and the state that decides which card is shown
 * next: the card store, two sorted key caches, two sampling pools in which a
 * key may occur several times, and the forced-repeat queue.
 */
module PairSets {
  import opened Optional
  import opened Strings
  import opened Sequences
  import opened Sorting
  import opened Parsing
  import opened Forcing

  /** One flashcard. `probability` is its weight in the sampling pools. */
  datatype Pair = Pair(front: string, back: string, probability: int, favorite: bool)

  /** A new card as `Pair(front:back:)` makes it: weight 1, not a favourite. */
  function NewPair(front: string, back: string): Pair
  {
    Pair(front, back, 1, false)
  }

  /** The store after one `AddPair`: unchanged if the front is already a key. */
  function AddOne(m: map<string, Pair>, t: (string, string)): (r: map<string, Pair>)
  {
    if t.0 in m then m else m[t.0 := NewPair(t.0, t.1)]
  }

  /** The store after adding the tuples in order. */
  function AddAll(m: map<string, Pair>, ts: seq<(string, string)>): (r: map<string, Pair>)
    decreases |ts|
  {
    if ts == [] then m else AddAll(AddOne(m, ts[0]), ts[1..])
  }

  /** The fronts that adding the tuples in order actually inserts, in that order. */
  function Added(m: map<string, Pair>, ts: seq<(string, string)>): (r: seq<string>)
    decreases |ts|
  {
    if ts == [] then []
    else (if ts[0].0 in m then [] else [ts[0].0]) + Added(AddOne(m, ts[0]), ts[1..])
  }

  /** The fronts of the tuples. */
  function Fronts(ts: seq<(string, string)>): seq<string>
  {
    seq(|ts|, i requires 0 <= i < |ts| => ts[i].0)
  }

  lemma {:induction false} AddAllSnoc(m: map<string, Pair>, ts: seq<(string, string)>, t: (string, string))
    ensures AddAll(m, ts + [t]) == AddOne(AddAll(m, ts), t)
    ensures Added(m, ts + [t]) == Added(m, ts) + (if t.0 in AddAll(m, ts) then [] else [t.0])
    decreases |ts|
  {
    if ts == [] {
      assert ts + [t] == [t];
    } else {
      assert (ts + [t])[0] == ts[0] && (ts + [t])[1..] == ts[1..] + [t];
      AddAllSnoc(AddOne(m, ts[0]), ts[1..], t);
    }
  }

  /** Adding never touches a card that was already there. */
  lemma {:induction false} AddAllKeeps(m: map<string, Pair>, ts: seq<(string, string)>)
    ensures forall k | k in m :: k in AddAll(m, ts) && AddAll(m, ts)[k] == m[k]
    decreases |ts|
  {
    if ts != [] {
      AddAllKeeps(AddOne(m, ts[0]), ts[1..]);
    }
  }

  /** The keys after adding are the old keys and the added fronts, which were all new. */
  lemma {:induction false} AddAllKeys(m: map<string, Pair>, ts: seq<(string, string)>)
    ensures forall k :: k in AddAll(m, ts) <==> k in m || k in Added(m, ts)
    ensures forall k | k in Added(m, ts) :: k !in m
    decreases |ts|
  {
    if ts != [] {
      AddAllKeys(AddOne(m, ts[0]), ts[1..]);
    }
  }

  /** No front is added twice, and at most one front is added per tuple. */
  lemma {:induction false} AddedDistinct(m: map<string, Pair>, ts: seq<(string, string)>)
    ensures Distinct(Added(m, ts))
    ensures |Added(m, ts)| <= |ts|
    decreases |ts|
  {
    if ts != [] {
      var m' := AddOne(m, ts[0]);
      AddedDistinct(m', ts[1..]);
      AddAllKeys(m', ts[1..]);
      var head := if ts[0].0 in m then [] else [ts[0].0];
      var a := Added(m, ts);
      assert multiset(a) == multiset(head) + multiset(Added(m', ts[1..]));
      forall x | x in a
        ensures multiset(a)[x] == 1
      {
        if x in head {
          assert x in m';
          assert x !in Added(m', ts[1..]);
        }
      }
    }
  }

  /** The store grows by exactly the number of added fronts. */
  lemma {:induction false} AddAllSize(m: map<string, Pair>, ts: seq<(string, string)>)
    ensures |AddAll(m, ts)| == |m| + |Added(m, ts)|
    decreases |ts|
  {
    if ts != [] {
      AddAllSize(AddOne(m, ts[0]), ts[1..]);
    }
  }

  /** Among tuples with the same front, the first one that is not already a key wins. */
  lemma {:induction false} AddAllFirstWins(m: map<string, Pair>, ts: seq<(string, string)>, i: nat)
    requires i < |ts| && ts[i].0 !in m
    requires forall j :: 0 <= j < i ==> ts[j].0 != ts[i].0
    ensures ts[i].0 in Added(m, ts)
    ensures ts[i].0 in AddAll(m, ts) && AddAll(m, ts)[ts[i].0] == NewPair(ts[i].0, ts[i].1)
    decreases i
  {
    var m' := AddOne(m, ts[0]);
    if i == 0 {
      AddAllKeeps(m', ts[1..]);
    } else {
      assert ts[1..][i - 1] == ts[i];
      AddAllFirstWins(m', ts[1..], i - 1);
    }
  }

  /** Tuples with distinct fronts, none of them already a key, are all added. */
  lemma {:induction false} AddAllDistinctFronts(m: map<string, Pair>, ts: seq<(string, string)>)
    requires forall i, j :: 0 <= i < j < |ts| ==> ts[i].0 != ts[j].0
    requires forall i :: 0 <= i < |ts| ==> ts[i].0 !in m
    ensures Added(m, ts) == Fronts(ts)
    decreases |ts|
  {
    if ts != [] {
      AddAllDistinctFronts(AddOne(m, ts[0]), ts[1..]);
      assert Fronts(ts) == [ts[0].0] + Fronts(ts[1..]);
    }
  }

  /** The favourite keys of a store. */
  function Favorites(pairs: map<string, Pair>): set<string>
  {
    set k | k in pairs && pairs[k].favorite
  }

  /** Each card is stored under its own front and has a weight of at least 1. */
  ghost predicate CardsOk(pairs: map<string, Pair>)
  {
    forall k | k in pairs :: pairs[k].front == k && pairs[k].probability >= 1
  }

  /** A sampling pool holds only keys of the store. */
  ghost predicate PoolOk(pool: seq<string>, pairs: map<string, Pair>)
  {
    forall k | k in pool :: k in pairs
  }

  /** The favourite pool holds only favourite keys. */
  ghost predicate FavPoolOk(pool: seq<string>, pairs: map<string, Pair>)
  {
    forall k | k in pool :: k in pairs && pairs[k].favorite
  }

  /** The favourites cache lists each favourite key exactly once, sorted. */
  ghost predicate FavCacheOk(cache: seq<string>, pairs: map<string, Pair>)
  {
    && Distinct(cache) && SortedByKey(cache)
    && (forall k :: k in cache <==> k in pairs && pairs[k].favorite)
  }

  /** The key cache is sorted, repeat-free and lists only keys. */
  ghost predicate KeyCacheOk(cache: seq<string>, pairs: map<string, Pair>)
  {
    && Distinct(cache) && SortedByKey(cache)
    && (forall k | k in cache :: k in pairs)
  }

  /**
   * What every operation keeps: the card, pool and cache invariants together.
   * The favourites cache part makes the force-unwraps of `firstIndex(of:)`
   * in `RemovePair` and `toggleFavorite` safe.
   */
  ghost predicate StateOk(pairs: map<string, Pair>, pool: seq<string>, favPool: seq<string>,
                          favCache: seq<string>, keyCache: seq<string>)
  {
    && CardsOk(pairs) && PoolOk(pool, pairs) && FavPoolOk(favPool, pairs)
    && FavCacheOk(favCache, pairs) && KeyCacheOk(keyCache, pairs)
  }

  /** A new card, with its front appended to the pool once, keeps the invariants. */
  lemma AddKeeps(pairs: map<string, Pair>, pool: seq<string>, favPool: seq<string>,
                 favCache: seq<string>, keyCache: seq<string>, front: string, back: string)
    requires StateOk(pairs, pool, favPool, favCache, keyCache) && front !in pairs
    ensures StateOk(pairs[front := NewPair(front, back)], pool + [front], favPool, favCache, keyCache)
  {
  }

  /** A new back text keeps the invariants. */
  lemma BackKeeps(pairs: map<string, Pair>, pool: seq<string>, favPool: seq<string>,
                  favCache: seq<string>, keyCache: seq<string>, key: string, back: string)
    requires StateOk(pairs, pool, favPool, favCache, keyCache) && key in pairs
    ensures StateOk(pairs[key := pairs[key].(back := back)], pool, favPool, favCache, keyCache)
  {
  }

  /** One more weight point, with one more copy in each pool the key belongs to, keeps the invariants. */
  lemma IncrementKeeps(pairs: map<string, Pair>, pool: seq<string>, favPool: seq<string>,
                       favCache: seq<string>, keyCache: seq<string>, key: string)
    requires StateOk(pairs, pool, favPool, favCache, keyCache) && key in pairs
    ensures var p := pairs[key];
      StateOk(pairs[key := p.(probability := p.probability + 1)], pool + [key],
              if p.favorite then favPool + [key] else favPool, favCache, keyCache)
  {
  }

  /** One weight point less, kept at least 1, keeps the invariants. */
  lemma DecrementKeeps(pairs: map<string, Pair>, pool: seq<string>, favPool: seq<string>,
                       favCache: seq<string>, keyCache: seq<string>, key: string)
    requires StateOk(pairs, pool, favPool, favCache, keyCache) && key in pairs && pairs[key].probability > 1
    ensures var p := pairs[key];
      StateOk(pairs[key := p.(probability := p.probability - 1)], pool, favPool, favCache, keyCache)
  {
  }

  /** Removing the first copy of a key from the pool keeps the invariants. */
  lemma PoolRemoveKeeps(pairs: map<string, Pair>, pool: seq<string>, favPool: seq<string>,
                        favCache: seq<string>, keyCache: seq<string>, key: string)
    requires StateOk(pairs, pool, favPool, favCache, keyCache)
    ensures StateOk(pairs, RemoveFirst(pool, key), favPool, favCache, keyCache)
  {
    RemoveFirstWithin(pool, key);
  }

  /** Removing the first copy of a key from the favourite pool keeps the invariants. */
  lemma FavPoolRemoveKeeps(pairs: map<string, Pair>, pool: seq<string>, favPool: seq<string>,
                           favCache: seq<string>, keyCache: seq<string>, key: string)
    requires StateOk(pairs, pool, favPool, favCache, keyCache)
    ensures StateOk(pairs, pool, RemoveFirst(favPool, key), favCache, keyCache)
  {
    RemoveFirstWithin(favPool, key);
  }

  /** Removing the first copy of a key from a pool keeps it inside any set it was inside. */
  lemma RemoveFirstWithin(pool: seq<string>, x: string)
    ensures forall k | k in RemoveFirst(pool, x) :: k in pool
  {
    RemoveFirstMultiset(pool, x);
    forall k | k in RemoveFirst(pool, x)
      ensures k in pool
    {
      assert k in multiset(RemoveFirst(pool, x));
    }
  }

  /** Deleting cards and omitting their keys from every pool and cache keeps the invariants. */
  lemma RemoveKeeps(pairs: map<string, Pair>, pool: seq<string>, favPool: seq<string>,
                    favCache: seq<string>, keyCache: seq<string>, drop: set<string>)
    requires StateOk(pairs, pool, favPool, favCache, keyCache)
    ensures StateOk(pairs - drop, Omit(pool, drop), Omit(favPool, drop), Omit(favCache, drop), Omit(keyCache, drop))
  {
    OmitMembers(pool, drop);
    OmitMembers(favPool, drop);
    OmitMembers(favCache, drop);
    OmitMembers(keyCache, drop);
    SortedOmit(favCache, drop);
    OmitDistinct(favCache, drop);
    SortedOmit(keyCache, drop);
    OmitDistinct(keyCache, drop);
  }

  /** A fresh key cache keeps the invariants. */
  lemma KeyCacheKeeps(pairs: map<string, Pair>, pool: seq<string>, favPool: seq<string>,
                      favCache: seq<string>, keyCache: seq<string>, keyCache': seq<string>)
    requires StateOk(pairs, pool, favPool, favCache, keyCache) && KeyCacheOk(keyCache', pairs)
    ensures StateOk(pairs, pool, favPool, favCache, keyCache')
  {
  }

  /** The store with one card's favourite flag set to `on`. */
  function WithFavorite(pairs: map<string, Pair>, key: string, on: bool): map<string, Pair>
    requires key in pairs
  {
    pairs[key := pairs[key].(favorite := on)]
  }

  /**
   * A key that just became a favourite, appended to the favourite pool and
   * to the favourites cache and re-sorted, keeps the invariants.
   */
  lemma FavoriteOnKeeps(pairs: map<string, Pair>, pool: seq<string>, favPool: seq<string>,
                        favCache: seq<string>, keyCache: seq<string>, key: string, sorted: seq<string>)
    requires StateOk(pairs, pool, favPool, favCache, keyCache)
    requires key in pairs && !pairs[key].favorite
    requires SortedByKey(sorted) && multiset(sorted) == multiset(favCache + [key])
    ensures StateOk(WithFavorite(pairs, key, true), pool, favPool + [key], sorted, keyCache)
  {
    var cache' := favCache + [key];
    assert key !in favCache;
    assert multiset(cache') == multiset(favCache) + multiset{key};
    forall x | x in cache'
      ensures multiset(cache')[x] == 1
    {
    }
    DistinctPermutation(cache', sorted);
    forall k
      ensures k in sorted <==> k in cache'
    {
      assert k in sorted <==> k in multiset(sorted);
    }
  }

  /**
   * A key that is no longer a favourite, omitted from the favourite pool and
   * from the favourites cache, keeps the invariants.
   */
  lemma FavoriteOffKeeps(pairs: map<string, Pair>, pool: seq<string>, favPool: seq<string>,
                         favCache: seq<string>, keyCache: seq<string>, key: string)
    requires StateOk(pairs, pool, favPool, favCache, keyCache)
    requires key in pairs && pairs[key].favorite
    ensures StateOk(WithFavorite(pairs, key, false), pool, Omit(favPool, {key}), Omit(favCache, {key}), keyCache)
  {
    OmitMembers(favPool, {key});
    OmitMembers(favCache, {key});
    SortedOmit(favCache, {key});
    OmitDistinct(favCache, {key});
  }

  /** A refilled pool: every eligible key exactly once. */
  ghost predicate RefilledWith(pool: seq<string>, eligible: set<string>)
  {
    Distinct(pool) && forall k :: k in pool <==> k in eligible
  }

  /** Refilling the pool with every key once keeps the invariants. */
  lemma RefillKeeps(pairs: map<string, Pair>, pool: seq<string>, favPool: seq<string>,
                    favCache: seq<string>, keyCache: seq<string>, pool': seq<string>)
    requires StateOk(pairs, pool, favPool, favCache, keyCache) && RefilledWith(pool', pairs.Keys)
    ensures StateOk(pairs, pool', favPool, favCache, keyCache)
  {
  }

  /** Refilling the favourite pool with its favourite keys once keeps the invariants. */
  lemma FavRefillKeeps(pairs: map<string, Pair>, pool: seq<string>, favPool: seq<string>,
                       favCache: seq<string>, keyCache: seq<string>, favPool': seq<string>)
    requires StateOk(pairs, pool, favPool, favCache, keyCache) && RefilledWith(favPool', Favorites(pairs))
    ensures StateOk(pairs, pool, favPool', favCache, keyCache)
  {
  }

  class PairSet {
    var name: string
    var pairs: map<string, Pair>
    var inflatedKeys: seq<string>
    var favInflatedKeys: seq<string>
    var forcedKeys: seq<KeyCounter>
    var cachedSortedKeys: seq<string>
    var cachedFavoritesKeys: seq<string>
    var reversedSides: bool
    var favoritesOnly: bool

    /** The invariants of `StateOk` on this set's fields. */
    ghost predicate Valid()
      reads this`pairs, this`inflatedKeys, this`favInflatedKeys, this`cachedFavoritesKeys, this`cachedSortedKeys
    {
      StateOk(pairs, inflatedKeys, favInflatedKeys, cachedFavoritesKeys, cachedSortedKeys)
    }

    /** The key cache lists every key; `AddPair(rebuild: false)` leaves it stale. */
    ghost predicate CacheFresh()
      reads this`pairs, this`cachedSortedKeys
    {
      forall k :: k in cachedSortedKeys <==> k in pairs
    }

    constructor (name: string)
      ensures this.name == name && pairs == map[]
      ensures inflatedKeys == [] && favInflatedKeys == [] && forcedKeys == []
      ensures cachedSortedKeys == [] && cachedFavoritesKeys == []
      ensures !reversedSides && !favoritesOnly
      ensures Valid() && CacheFresh()
    {
      this.name := name;
      pairs := map[];
      inflatedKeys := [];
      favInflatedKeys := [];
      forcedKeys := [];
      cachedSortedKeys := [];
      cachedFavoritesKeys := [];
      reversedSides := false;
      favoritesOnly := false;
    }

    method SortFavoritesCache()
      modifies this`cachedFavoritesKeys
      ensures SortedByKey(cachedFavoritesKeys)
      ensures multiset(cachedFavoritesKeys) == multiset(old(cachedFavoritesKeys))
    {
      cachedFavoritesKeys := SortByKey(cachedFavoritesKeys);
    }

    method RebuildSortedKeysCache()
      modifies this`cachedSortedKeys
      ensures KeyCacheOk(cachedSortedKeys, pairs) && CacheFresh()
    {
      var keys := SeqOfSet(pairs.Keys);
      cachedSortedKeys := SortByKey(keys);
      DistinctPermutation(keys, cachedSortedKeys);
      forall k
        ensures k in cachedSortedKeys <==> k in pairs
      {
        assert k in cachedSortedKeys <==> k in multiset(keys);
      }
    }

    /** `getPairsFrom(text:)`: the cards that a text import yields. */
    static method GetPairsFrom(text: string) returns (found: seq<(string, string)>)
      ensures found == ParseText(text)
      ensures |found| == |DropBlank(SplitLines(text))| / 2
      ensures Flatten(found) == DropBlank(SplitLines(text))[..2 * |found|]
    {
      found := [];
      var lines := DropBlank(SplitLines(text));
      ghost var survivors := lines;
      ParsedLinesClean(text);
      if |lines| >= 2 {
        var i := 0;
        while i < |lines|
          invariant 0 <= i <= |lines| && i == 2 * |found|
          invariant lines == survivors
          invariant forall j :: 0 <= j < |found| ==> found[j] == (lines[2 * j], lines[2 * j + 1])
        {
          if i + 1 == |lines| {
            break;
          }
          assert lines[i] in survivors && lines[i + 1] in survivors;
          StripNewlinesNoop(lines[i]);
          StripNewlinesNoop(lines[i + 1]);
          lines := lines[i := StripNewlines(lines[i])];
          lines := lines[i + 1 := StripNewlines(lines[i + 1])];
          assert lines == survivors;
          found := found + [(lines[i], lines[i + 1])];
          i := i + 2;
        }
      }
      PairUpAt(survivors);
      assert |found| == |survivors| / 2;
      FlattenPairUp(survivors);
    }

    /** Adds the tuples in order, skipping fronts that are already keys; returns how many it added. */
    method AddFromTuples(tuples: seq<(string, string)>) returns (count: int)
      requires Valid()
      modifies this`pairs, this`inflatedKeys, this`cachedSortedKeys
      ensures Valid() && CacheFresh()
      ensures pairs == AddAll(old(pairs), tuples)
      ensures inflatedKeys == old(inflatedKeys) + Added(old(pairs), tuples)
      ensures count == |Added(old(pairs), tuples)|
      ensures 0 <= count <= |tuples| && |pairs| == |old(pairs)| + count
    {
      count := 0;
      for i := 0 to |tuples|
        invariant Valid()
        invariant pairs == AddAll(old(pairs), tuples[..i])
        invariant inflatedKeys == old(inflatedKeys) + Added(old(pairs), tuples[..i])
        invariant count == |Added(old(pairs), tuples[..i])|
      {
        AddAllSnoc(old(pairs), tuples[..i], tuples[i]);
        assert tuples[..i + 1] == tuples[..i] + [tuples[i]];
        var success := AddPair(tuples[i].0, tuples[i].1, false);
        if success {
          count := count + 1;
        }
      }
      assert tuples[..|tuples|] == tuples;
      AddAllKeys(old(pairs), tuples);
      AddedDistinct(old(pairs), tuples);
      AddAllSize(old(pairs), tuples);
      ghost var keyCache0 := cachedSortedKeys;
      RebuildSortedKeysCache();
      KeyCacheKeeps(pairs, inflatedKeys, favInflatedKeys, cachedFavoritesKeys, keyCache0, cachedSortedKeys);
    }

    /**
     * Inserts a new card unless `front` is already a key; the new front goes
     * into the sampling pool once.
     */
    method AddPair(front: string, back: string, rebuild: bool) returns (ok: bool)
      requires Valid()
      modifies this`pairs, this`inflatedKeys, this`cachedSortedKeys
      ensures Valid()
      ensures ok <==> front !in old(pairs)
      ensures ok ==> pairs == old(pairs)[front := NewPair(front, back)]
      ensures ok ==> inflatedKeys == old(inflatedKeys) + [front]
      ensures !ok ==> pairs == old(pairs) && inflatedKeys == old(inflatedKeys)
      ensures ok && rebuild ==> CacheFresh()
      ensures !(ok && rebuild) ==> cachedSortedKeys == old(cachedSortedKeys)
    {
      if front in pairs {
        return false;
      }
      AddKeeps(pairs, inflatedKeys, favInflatedKeys, cachedFavoritesKeys, cachedSortedKeys, front, back);
      pairs := pairs[front := NewPair(front, back)];
      inflatedKeys := inflatedKeys + [front];
      if rebuild {
        ghost var keyCache0 := cachedSortedKeys;
        RebuildSortedKeysCache();
        KeyCacheKeeps(pairs, inflatedKeys, favInflatedKeys, cachedFavoritesKeys, keyCache0, cachedSortedKeys);
      }
      return true;
    }

    /** Replaces the back text of an existing card; no-op when `key` is absent. */
    method ChangeBackOf(key: string, back: string)
      requires Valid()
      modifies this`pairs
      ensures Valid()
      ensures key in old(pairs) ==> pairs == old(pairs)[key := old(pairs)[key].(back := back)]
      ensures key !in old(pairs) ==> pairs == old(pairs)
    {
      if key !in pairs {
        return;
      }
      BackKeeps(pairs, inflatedKeys, favInflatedKeys, cachedFavoritesKeys, cachedSortedKeys, key, back);
      pairs := pairs[key := pairs[key].(back := back)];
    }

    /**
     * Removes a card and every occurrence of its key from both pools and
     * both caches, keeping the order of what remains; the forced queue is
     * not touched.
     */
    method RemovePair(front: string)
      requires Valid()
      modifies this`pairs, this`inflatedKeys, this`favInflatedKeys, this`cachedFavoritesKeys, this`cachedSortedKeys
      ensures Valid() && CacheFresh()
      ensures pairs == old(pairs) - {front}
      ensures inflatedKeys == Omit(old(inflatedKeys), {front})
      ensures favInflatedKeys == Omit(old(favInflatedKeys), {front})
      ensures cachedFavoritesKeys == Omit(old(cachedFavoritesKeys), {front})
    {
      ghost var fav0, cache0, keyCache0 := favInflatedKeys, cachedFavoritesKeys, cachedSortedKeys;
      RemoveKeeps(pairs, inflatedKeys, fav0, cache0, keyCache0, {front});
      if front in pairs && pairs[front].favorite {
        var found := FirstIndex(cachedFavoritesKeys, front);
        RemoveAtDistinct(cachedFavoritesKeys, found.value);
        cachedFavoritesKeys := RemoveAt(cachedFavoritesKeys, found.value);
        favInflatedKeys := Omit(favInflatedKeys, {front});
      } else {
        OmitNothing(cachedFavoritesKeys, {front});
        OmitNothing(favInflatedKeys, {front});
      }
      assert cachedFavoritesKeys == Omit(cache0, {front}) && favInflatedKeys == Omit(fav0, {front});
      pairs := pairs - {front};
      inflatedKeys := Omit(inflatedKeys, {front});
      RebuildSortedKeysCache();
      KeyCacheKeeps(pairs, inflatedKeys, favInflatedKeys, cachedFavoritesKeys, Omit(keyCache0, {front}), cachedSortedKeys);
    }

    /**
     * A wrong answer: adds one weight point and one pool copy, unless the key
     * is absent or its weight has reached a tenth of the pool size.
     */
    method IncrementProbability(front: string)
      requires Valid()
      modifies this`pairs, this`inflatedKeys, this`favInflatedKeys
      ensures Valid()
      ensures front !in old(pairs) || old(pairs[front].probability) >= |old(inflatedKeys)| / 10 ==>
        pairs == old(pairs) && inflatedKeys == old(inflatedKeys) && favInflatedKeys == old(favInflatedKeys)
      ensures front in old(pairs) && old(pairs[front].probability) < |old(inflatedKeys)| / 10 ==>
        pairs == old(pairs)[front := old(pairs[front]).(probability := old(pairs[front].probability) + 1)]
      ensures front in old(pairs) && old(pairs[front].probability) < |old(inflatedKeys)| / 10 ==>
        inflatedKeys == old(inflatedKeys) + [front]
      ensures front in old(pairs) && old(pairs[front].probability) < |old(inflatedKeys)| / 10 ==>
        favInflatedKeys == old(favInflatedKeys) + (if old(pairs[front].favorite) then [front] else [])
      ensures front in pairs ==>
        pairs[front].probability <= old(pairs[front].probability) ||
        pairs[front].probability <= |old(inflatedKeys)| / 10
    {
      if front !in pairs {
        return;
      }
      if pairs[front].probability >= |inflatedKeys| / 10 {
        return;
      }
      IncrementKeeps(pairs, inflatedKeys, favInflatedKeys, cachedFavoritesKeys, cachedSortedKeys, front);
      pairs := pairs[front := pairs[front].(probability := pairs[front].probability + 1)];
      inflatedKeys := inflatedKeys + [front];
      if pairs[front].favorite {
        favInflatedKeys := favInflatedKeys + [front];
      }
    }

    /**
     * A right answer: takes one weight point off, never below 1, and removes
     * the first pool copy of the key, and the first favourite-pool copy if it
     * is a favourite; no-op when the key is absent.
     */
    method DecrementProbability(front: string)
      requires Valid()
      modifies this`pairs, this`inflatedKeys, this`favInflatedKeys
      ensures Valid()
      ensures front !in old(pairs) ==>
        pairs == old(pairs) && inflatedKeys == old(inflatedKeys) && favInflatedKeys == old(favInflatedKeys)
      ensures front in old(pairs) && old(pairs[front].probability) > 1 ==>
        pairs == old(pairs)[front := old(pairs[front]).(probability := old(pairs[front].probability) - 1)]
      ensures front in old(pairs) && old(pairs[front].probability) <= 1 ==> pairs == old(pairs)
      ensures front in old(pairs) ==> inflatedKeys == RemoveFirst(old(inflatedKeys), front)
      ensures front in old(pairs) && old(pairs[front].favorite) ==>
        favInflatedKeys == RemoveFirst(old(favInflatedKeys), front)
      ensures front in old(pairs) && !old(pairs[front].favorite) ==> favInflatedKeys == old(favInflatedKeys)
    {
      if front !in pairs {
        return;
      }
      var p := pairs[front];
      ghost var pairs0, pool0, fav0 := pairs, inflatedKeys, favInflatedKeys;
      ghost var pairs1 := pairs0;
      if p.probability > 1 {
        DecrementKeeps(pairs0, pool0, fav0, cachedFavoritesKeys, cachedSortedKeys, front);
        pairs := pairs[front := p.(probability := p.probability - 1)];
        pairs1 := pairs;
      }
      PoolRemoveKeeps(pairs1, pool0, fav0, cachedFavoritesKeys, cachedSortedKeys, front);
      inflatedKeys := RemoveFirst(inflatedKeys, front);
      if p.favorite {
        FavPoolRemoveKeeps(pairs1, inflatedKeys, fav0, cachedFavoritesKeys, cachedSortedKeys, front);
        favInflatedKeys := RemoveFirst(favInflatedKeys, front);
      }
    }

    /**
     * Flips the favourite flag. A new favourite gets one favourite-pool copy,
     * whatever its weight, and a place in the sorted favourites cache; a former
     * favourite loses all its favourite-pool copies and its cache entry.
     */
    method ToggleFavorite(key: string)
      requires Valid()
      modifies this`pairs, this`favInflatedKeys, this`cachedFavoritesKeys
      ensures Valid()
      ensures key !in old(pairs) ==> pairs == old(pairs)
      ensures key !in old(pairs) ==> favInflatedKeys == old(favInflatedKeys)
      ensures key !in old(pairs) ==> cachedFavoritesKeys == old(cachedFavoritesKeys)
      ensures key in old(pairs) ==> pairs == WithFavorite(old(pairs), key, !old(pairs[key].favorite))
      ensures key in old(pairs) && !old(pairs[key].favorite) ==> favInflatedKeys == old(favInflatedKeys) + [key]
      ensures key in old(pairs) && !old(pairs[key].favorite) ==>
        multiset(cachedFavoritesKeys) == multiset(old(cachedFavoritesKeys)) + multiset{key}
      ensures key in old(pairs) && old(pairs[key].favorite) ==> favInflatedKeys == Omit(old(favInflatedKeys), {key})
      ensures key in old(pairs) && old(pairs[key].favorite) ==>
        cachedFavoritesKeys == Omit(old(cachedFavoritesKeys), {key})
    {
      if key !in pairs {
        return;
      }
      ghost var pairs0, fav0, cache0 := pairs, favInflatedKeys, cachedFavoritesKeys;
      var on := !pairs[key].favorite;
      pairs := WithFavorite(pairs, key, on);
      if on {
        favInflatedKeys := favInflatedKeys + [key];
        cachedFavoritesKeys := cachedFavoritesKeys + [key];
        SortFavoritesCache();
        FavoriteOnKeeps(pairs0, inflatedKeys, fav0, cache0, cachedSortedKeys, key, cachedFavoritesKeys);
      } else {
        favInflatedKeys := Omit(favInflatedKeys, {key});
        FavoriteOffKeeps(pairs0, inflatedKeys, fav0, cache0, cachedSortedKeys, key);
        var found := FirstIndex(cachedFavoritesKeys, key);
        RemoveAtDistinct(cachedFavoritesKeys, found.value);
        cachedFavoritesKeys := RemoveAt(cachedFavoritesKeys, found.value);
      }
    }

    /** Queues an existing key to come back after 10 draws; no-op when absent. */
    method ForcePair(key: string)
      modifies this`forcedKeys
      ensures forcedKeys == if key in pairs then old(forcedKeys) + [KeyCounter(key, ForcedDelay)] else old(forcedKeys)
    {
      if key !in pairs {
        return;
      }
      forcedKeys := forcedKeys + [KeyCounter(key, ForcedDelay)];
    }

    /**
     * The next card to show. The forced queue goes first (see `Tick`); its
     * key is returned whether or not it is still a key. Otherwise the draw
     * comes from the sampling pool (see `DrawFromPool`).
     */
    method GetNext() returns (r: Option<string>)
      requires Valid()
      modifies this`forcedKeys, this`inflatedKeys, this`favInflatedKeys
      ensures Valid()
      ensures forcedKeys == Tick(old(forcedKeys)).queue
      ensures Tick(old(forcedKeys)).fired.Some? ==> r == Tick(old(forcedKeys)).fired
      ensures Tick(old(forcedKeys)).fired.Some? || favoritesOnly ==> inflatedKeys == old(inflatedKeys)
      ensures Tick(old(forcedKeys)).fired.Some? || !favoritesOnly ==> favInflatedKeys == old(favInflatedKeys)
      ensures Tick(old(forcedKeys)).fired.None? ==> PoolDraw(old(inflatedKeys), old(favInflatedKeys), r)
    {
      if |forcedKeys| > 0 {
        for i := 0 to |forcedKeys|
          modifies this`forcedKeys
          invariant |forcedKeys| == |old(forcedKeys)|
          invariant forall j :: 0 <= j < i ==> forcedKeys[j] == Decremented(old(forcedKeys))[j]
          invariant forall j :: i <= j < |forcedKeys| ==> forcedKeys[j] == old(forcedKeys)[j]
        {
          forcedKeys := forcedKeys[i := forcedKeys[i].(counter := forcedKeys[i].counter - 1)];
        }
        assert forcedKeys == Decremented(old(forcedKeys));
        if forcedKeys[0].counter == 0 {
          var forcedKey := forcedKeys[0].key;
          forcedKeys := forcedKeys[1..];
          return Some(forcedKey);
        }
      }
      r := DrawFromPool();
    }

    /**
     * What a draw from the pool promises: a pool that was not empty is kept,
     * an empty one is refilled with every eligible key once, and the result
     * is nil exactly when the pool is still empty, and otherwise one of its
     * members, hence a key, and a favourite in favourites-only mode.
     */
    ghost predicate PoolDraw(pool0: seq<string>, favPool0: seq<string>, r: Option<string>)
      reads this`pairs, this`inflatedKeys, this`favInflatedKeys, this`favoritesOnly
    {
      var pool := if favoritesOnly then favInflatedKeys else inflatedKeys;
      var pool0 := if favoritesOnly then favPool0 else pool0;
      && (pool0 != [] ==> pool == pool0)
      && (pool0 == [] ==> RefilledWith(pool, if favoritesOnly then Favorites(pairs) else pairs.Keys))
      && (r.None? <==> pool == [])
      && (r.Some? ==> r.value in pool && r.value in pairs)
      && (r.Some? && favoritesOnly ==> pairs[r.value].favorite)
    }

    /** The random half of `getNext()`: refill the chosen pool if empty, then pick from it. */
    method DrawFromPool() returns (r: Option<string>)
      requires Valid()
      modifies this`inflatedKeys, this`favInflatedKeys
      ensures Valid()
      ensures favoritesOnly ==> inflatedKeys == old(inflatedKeys)
      ensures !favoritesOnly ==> favInflatedKeys == old(favInflatedKeys)
      ensures PoolDraw(old(inflatedKeys), old(favInflatedKeys), r)
    {
      if favoritesOnly {
        if favInflatedKeys == [] {
          var keys := SeqOfSet(pairs.Keys);
          OmitDistinct(keys, pairs.Keys - Favorites(pairs));
          OmitMembers(keys, pairs.Keys - Favorites(pairs));
          FavRefillKeeps(pairs, inflatedKeys, favInflatedKeys, cachedFavoritesKeys, cachedSortedKeys,
                         Omit(keys, pairs.Keys - Favorites(pairs)));
          favInflatedKeys := Omit(keys, pairs.Keys - Favorites(pairs));
        }
        r := RandomElement(favInflatedKeys);
      } else {
        if inflatedKeys == [] {
          var keys := SeqOfSet(pairs.Keys);
          RefillKeeps(pairs, inflatedKeys, favInflatedKeys, cachedFavoritesKeys, cachedSortedKeys, keys);
          inflatedKeys := keys;
        }
        r := RandomElement(inflatedKeys);
      }
    }
  }
}
