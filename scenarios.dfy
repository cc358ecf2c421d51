/**
 * Concrete runs of the card store that show its less obvious behaviours:
 * duplicate imports, a single card, a forced key that outlives its card,
 * and the favourite flag round trip.
 */
module Scenarios {
  import opened Optional
  import opened Sequences
  import opened Forcing
  import opened PairSets
  import opened Practice

  /** Importing the same front twice keeps the first back text and counts one card. */
  method AddTwiceKeepsFirst() returns (count: int, back: string)
    ensures count == 1 && back == "1"
  {
    var s := new PairSet("s");
    var tuples := [("a", "1"), ("a", "2")];
    assert AddAll(map[], tuples) == AddAll(map["a" := NewPair("a", "1")], [("a", "2")]);
    assert Added(map[], tuples) == ["a"] + Added(map["a" := NewPair("a", "1")], [("a", "2")]);
    count := s.AddFromTuples(tuples);
    back := s.pairs["a"].back;
  }

  /**
   * In a set whose only card is `k`, a draw that the forced queue does not
   * decide is that card, unless favourites-only mode is on and `k` is not a
   * favourite.
   */
  method SingleCardAlwaysDrawn(s: PairSet, k: string) returns (r: Option<string>)
    requires s.Valid() && s.pairs.Keys == {k}
    requires !s.favoritesOnly || s.pairs[k].favorite
    requires Tick(s.forcedKeys).fired.None?
    modifies s`forcedKeys, s`inflatedKeys, s`favInflatedKeys
    ensures r == Some(k)
  {
    r := s.GetNext();
    assert k in (if s.favoritesOnly then Favorites(s.pairs) else s.pairs.Keys);
  }

  /**
   * A forced key whose card is deleted still comes back on the tenth draw,
   * and the practice screen then has no card to show for it.
   */
  method ForcedKeyOutlivesDeletion() returns (r: Option<string>, present: bool, shown: Option<Pair>)
    ensures r == Some("a") && !present && shown == None
  {
    var s := new PairSet("s");
    var _ := s.AddPair("a", "1", true);
    s.ForcePair("a");
    s.RemovePair("a");
    for i := 0 to ForcedDelay - 1
      invariant s.Valid() && s.pairs == map[]
      invariant s.forcedKeys == [KeyCounter("a", ForcedDelay - i)]
    {
      var _ := DrawWithLoneForced(s, "a", ForcedDelay - i);
    }
    r := DrawWithLoneForced(s, "a", 1);
    present := "a" in s.pairs;
    shown := CardFor(s.pairs, r);
  }

  /** One draw while a single key is forced. */
  method DrawWithLoneForced(s: PairSet, key: string, counter: int) returns (r: Option<string>)
    requires s.Valid() && s.forcedKeys == [KeyCounter(key, counter)]
    modifies s`forcedKeys, s`inflatedKeys, s`favInflatedKeys
    ensures s.Valid()
    ensures counter != 1 ==> s.forcedKeys == [KeyCounter(key, counter - 1)]
    ensures counter == 1 ==> s.forcedKeys == [] && r == Some(key)
  {
    TickSingle(key, counter);
    r := s.GetNext();
  }

  /**
   * Making a card a favourite and back again restores the favourite pool
   * exactly and the favourites cache up to order.
   */
  method ToggleTwiceRestores(s: PairSet, key: string)
    requires s.Valid() && key in s.pairs && !s.pairs[key].favorite
    modifies s`pairs, s`favInflatedKeys, s`cachedFavoritesKeys
    ensures s.pairs == old(s.pairs)
    ensures s.favInflatedKeys == old(s.favInflatedKeys)
    ensures multiset(s.cachedFavoritesKeys) == multiset(old(s.cachedFavoritesKeys))
  {
    ghost var pairs0, fav0, cache0 := s.pairs, s.favInflatedKeys, s.cachedFavoritesKeys;
    assert key !in fav0 && key !in cache0;
    s.ToggleFavorite(key);
    ghost var cache1 := s.cachedFavoritesKeys;
    s.ToggleFavorite(key);
    UnfavoriteRestores(fav0, cache0, cache1, key);
    FavoriteTwice(pairs0, key);
  }

  /** Omitting a key that was just appended to a list without it gives the list back. */
  lemma UnfavoriteRestores(fav: seq<string>, cache: seq<string>, cache': seq<string>, key: string)
    requires key !in fav && key !in cache
    requires multiset(cache') == multiset(cache) + multiset{key}
    ensures Omit(fav + [key], {key}) == fav
    ensures multiset(Omit(cache', {key})) == multiset(cache)
  {
    OmitAppend(fav, [key], {key});
    OmitNothing(fav, {key});
    UnfavoriteCache(cache, cache', key);
  }

  lemma UnfavoriteCache(cache: seq<string>, cache': seq<string>, key: string)
    requires key !in cache && multiset(cache') == multiset(cache) + multiset{key}
    ensures multiset(Omit(cache', {key})) == multiset(cache)
  {
    OmitMultiset(cache', {key});
    forall x
      ensures multiset(Omit(cache', {key}))[x] == multiset(cache)[x]
    {
      if x == key {
        assert x !in multiset(cache);
      }
    }
  }

  lemma FavoriteTwice(pairs: map<string, Pair>, key: string)
    requires key in pairs && !pairs[key].favorite
    ensures WithFavorite(WithFavorite(pairs, key, true), key, false) == pairs
  {
  }

  /** A new favourite gets a single favourite-pool copy, however heavy the card is. */
  method FavoriteIgnoresWeight(s: PairSet, key: string)
    requires s.Valid() && key in s.pairs && !s.pairs[key].favorite
    modifies s`pairs, s`favInflatedKeys, s`cachedFavoritesKeys
    ensures multiset(s.favInflatedKeys)[key] == 1
    ensures key in s.pairs && s.pairs[key].probability == old(s.pairs[key].probability)
  {
    assert key !in s.favInflatedKeys;
    s.ToggleFavorite(key);
  }
}
