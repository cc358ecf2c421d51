/**
 * The card list of the set editor: a search filter over one of the two key
 * caches, and the bulk operations on the selected keys (favourite, copy into
 * a new set, delete).
 */
module EditPairs {
  import opened Strings
  import opened Sequences
  import opened PairSets

  /** A card matches a search when its front or its back contains the search text. */
  predicate Matches(pairs: map<string, Pair>, key: string, search: string)
    ensures search == "" ==> Matches(pairs, key, search)
  {
    Contains(key, search) || (key in pairs && Contains(pairs[key].back, search))
  }

  /** `keys.filter { matches }`: the matching keys in their cache order. */
  function FilterKeys(keys: seq<string>, pairs: map<string, Pair>, search: string): (r: seq<string>)
    requires forall k | k in keys :: k in pairs
    ensures |r| <= |keys|
  {
    if keys == [] then []
    else (if Matches(pairs, keys[0], search) then [keys[0]] else []) + FilterKeys(keys[1..], pairs, search)
  }

  /** The filter keeps exactly the matching keys. */
  lemma {:induction false} FilterKeysMembers(keys: seq<string>, pairs: map<string, Pair>, search: string)
    requires forall k | k in keys :: k in pairs
    ensures forall k :: k in FilterKeys(keys, pairs, search) <==> k in keys && Matches(pairs, k, search)
  {
    if keys != [] {
      FilterKeysMembers(keys[1..], pairs, search);
      assert keys == [keys[0]] + keys[1..];
    }
  }

  /** The filter keeps the cache order. */
  lemma {:induction false} FilterKeysSubsequence(keys: seq<string>, pairs: map<string, Pair>, search: string)
    requires forall k | k in keys :: k in pairs
    ensures IsSubsequence(FilterKeys(keys, pairs, search), keys)
  {
    if keys != [] {
      var r := FilterKeys(keys, pairs, search);
      FilterKeysSubsequence(keys[1..], pairs, search);
      if Matches(pairs, keys[0], search) {
        assert r[0] == keys[0] && r[1..] == FilterKeys(keys[1..], pairs, search);
      } else if r != [] {
        assert r == FilterKeys(keys[1..], pairs, search);
      }
    }
  }

  /** Filtering is omitting the keys that do not match. */
  lemma {:induction false} FilterKeysOmit(keys: seq<string>, pairs: map<string, Pair>, search: string, drop: set<string>)
    requires forall k | k in keys :: k in pairs
    requires forall k | k in keys :: k in drop <==> !Matches(pairs, k, search)
    ensures FilterKeys(keys, pairs, search) == Omit(keys, drop)
  {
    if keys != [] {
      assert keys[0] in keys;
      assert forall k | k in keys[1..] :: k in keys;
      FilterKeysOmit(keys[1..], pairs, search, drop);
    }
  }

  /** Every card with each flag in `keys` flipped; the other cards as they were. */
  function FlipAll(pairs: map<string, Pair>, keys: set<string>): (r: map<string, Pair>)
    ensures r.Keys == pairs.Keys
  {
    map k | k in pairs :: if k in keys then pairs[k].(favorite := !pairs[k].favorite) else pairs[k]
  }

  /** Flipping one more key is one more `toggleFavorite`, which is a no-op on an absent key. */
  lemma FlipAllOneMore(pairs: map<string, Pair>, done: set<string>, key: string)
    requires key !in done
    ensures key in pairs ==>
      FlipAll(pairs, done + {key}) == WithFavorite(FlipAll(pairs, done), key, !FlipAll(pairs, done)[key].favorite)
    ensures key !in pairs ==> FlipAll(pairs, done + {key}) == FlipAll(pairs, done)
  {
  }

  /** Flipping the same keys twice gives back every card. */
  lemma FlipAllTwice(pairs: map<string, Pair>, keys: set<string>)
    ensures FlipAll(FlipAll(pairs, keys), keys) == pairs
  {
    var once := FlipAll(pairs, keys);
    var twice := FlipAll(once, keys);
    forall k | k in pairs
      ensures twice[k] == pairs[k]
    {
    }
  }

  /**
   * The favourite-pool copies of each key once `done` has been flipped: none
   * for a former favourite, one for a new favourite, the old count otherwise.
   */
  ghost predicate FlippedPool(favPool: seq<string>, favPool0: seq<string>, pairs0: map<string, Pair>, done: set<string>)
  {
    forall k :: multiset(favPool)[k] ==
      if k in done && k in pairs0 then (if pairs0[k].favorite then 0 else 1) else multiset(favPool0)[k]
  }

  /**
   * One more `toggleFavorite` on the pool: a present favourite loses every
   * copy, a present non-favourite, which had none, gets one, and an absent
   * key changes nothing.
   */
  lemma FlippedPoolOneMore(favPool: seq<string>, favPool': seq<string>, favPool0: seq<string>,
                           pairs0: map<string, Pair>, done: set<string>, key: string)
    requires FlippedPool(favPool, favPool0, pairs0, done) && key !in done
    requires FavPoolOk(favPool, FlipAll(pairs0, done))
    requires key !in pairs0 ==> favPool' == favPool
    requires key in pairs0 && pairs0[key].favorite ==> favPool' == Omit(favPool, {key})
    requires key in pairs0 && !pairs0[key].favorite ==> favPool' == favPool + [key]
    ensures FlippedPool(favPool', favPool0, pairs0, done + {key})
  {
    OmitMultiset(favPool, {key});
    if key in pairs0 && !pairs0[key].favorite {
      assert key !in favPool;
    }
  }

  /** `keys.map { key in (key, pairs[key]!.back) }`. */
  function CopyTuples(pairs: map<string, Pair>, keys: seq<string>): (ts: seq<(string, string)>)
    requires forall k | k in keys :: k in pairs
    ensures |ts| == |keys|
  {
    seq(|keys|, i requires 0 <= i < |keys| => (keys[i], pairs[keys[i]].back))
  }

  /** `store` holds a fresh copy of the card under each of `keys`, and nothing else. */
  ghost predicate CopiedCards(store: map<string, Pair>, pairs: map<string, Pair>, keys: set<string>)
    requires keys <= pairs.Keys
  {
    store.Keys == keys && forall k | k in keys :: store[k] == NewPair(k, pairs[k].back)
  }

  /**
   * Copying repeat-free keys into an empty store adds every one of them, in
   * order, each as a new card with the original back text.
   */
  lemma CopyAddsAll(pairs: map<string, Pair>, keys: seq<string>, selected: set<string>)
    requires selected <= pairs.Keys
    requires Distinct(keys) && forall k :: k in keys <==> k in selected
    ensures Added(map[], CopyTuples(pairs, keys)) == keys
    ensures CopiedCards(AddAll(map[], CopyTuples(pairs, keys)), pairs, selected)
  {
    var ts := CopyTuples(pairs, keys);
    CopyFrontsDistinct(pairs, keys);
    AddAllDistinctFronts(map[], ts);
    AddAllKeys(map[], ts);
    forall k | k in selected
      ensures AddAll(map[], ts)[k] == NewPair(k, pairs[k].back)
    {
      var i :| 0 <= i < |keys| && keys[i] == k;
      AddAllFirstWins(map[], ts, i);
    }
  }

  /** The copied tuples have the keys as their fronts, which are all new and all different. */
  lemma CopyFrontsDistinct(pairs: map<string, Pair>, keys: seq<string>)
    requires forall k | k in keys :: k in pairs
    requires Distinct(keys)
    ensures Fronts(CopyTuples(pairs, keys)) == keys
    ensures forall i, j :: 0 <= i < j < |keys| ==> CopyTuples(pairs, keys)[i].0 != CopyTuples(pairs, keys)[j].0
  {
    var ts := CopyTuples(pairs, keys);
    forall i, j | 0 <= i < j < |ts|
      ensures ts[i].0 != ts[j].0
    {
      DistinctIndices(keys, i, j);
    }
  }

  /** `PairSet(name:)` followed by `AddFromTuples(array:)`. */
  method NewSetFrom(name: string, tuples: seq<(string, string)>) returns (s: PairSet)
    ensures fresh(s) && s.name == name
    ensures s.Valid() && s.CacheFresh()
    ensures s.pairs == AddAll(map[], tuples) && s.inflatedKeys == Added(map[], tuples)
    ensures s.favInflatedKeys == [] && s.cachedFavoritesKeys == [] && s.forcedKeys == []
    ensures !s.reversedSides && !s.favoritesOnly
  {
    s := new PairSet(name);
    var _ := s.AddFromTuples(tuples);
    assert [] + Added(map[], tuples) == Added(map[], tuples);
  }

  class EditPairsView {
    /** The set being edited (`set` in the view; that word is taken in Dafny). */
    const pairSet: PairSet
    var searchText: string
    var showingFavorites: bool
    var selectedPairs: set<string>

    constructor (pairSet: PairSet)
      ensures this.pairSet == pairSet && searchText == "" && !showingFavorites && selectedPairs == {}
    {
      this.pairSet := pairSet;
      searchText := "";
      showingFavorites := false;
      selectedPairs := {};
    }

    /** The cache the list shows: the favourites cache or the key cache. */
    function Shown(): seq<string>
      reads this, pairSet
    {
      if showingFavorites then pairSet.cachedFavoritesKeys else pairSet.cachedSortedKeys
    }

    /**
     * The keys the list shows: the chosen cache unchanged when there is no
     * search text, and otherwise its matching keys in cache order.
     */
    function FilterPairs(): (keys: seq<string>)
      reads this, pairSet
      requires pairSet.Valid()
      ensures searchText == "" ==> keys == Shown()
      ensures IsSubsequence(keys, Shown())
      ensures forall k :: k in keys <==> k in Shown() && (searchText == "" || Matches(pairSet.pairs, k, searchText))
    {
      if searchText != "" then
        FilterKeysMembers(Shown(), pairSet.pairs, searchText);
        FilterKeysSubsequence(Shown(), pairSet.pairs, searchText);
        FilterKeys(Shown(), pairSet.pairs, searchText)
      else
        SubsequenceReflexive(Shown());
        Shown()
    }

    /** `toggleFavorite` on every selected key, in some order: each selected card is flipped once. */
    method ToggleFavoriteSelection()
      requires pairSet.Valid()
      modifies pairSet`pairs, pairSet`favInflatedKeys, pairSet`cachedFavoritesKeys
      ensures pairSet.Valid()
      ensures pairSet.pairs == FlipAll(old(pairSet.pairs), selectedPairs)
      ensures forall k :: (multiset(pairSet.favInflatedKeys)[k] ==
                            if k in selectedPairs && k in old(pairSet.pairs)
                            then (if old(pairSet.pairs)[k].favorite then 0 else 1)
                            else multiset(old(pairSet.favInflatedKeys))[k])
    {
      var rest := selectedPairs;
      ghost var done: set<string> := {};
      ghost var pairs0, fav0 := pairSet.pairs, pairSet.favInflatedKeys;
      while rest != {}
        invariant rest <= selectedPairs && done == selectedPairs - rest
        invariant pairSet.Valid()
        invariant pairSet.pairs == FlipAll(pairs0, done)
        invariant FlippedPool(pairSet.favInflatedKeys, fav0, pairs0, done)
        decreases rest
      {
        var key :| key in rest;
        ToggleOne(key, pairs0, fav0, done);
        rest := rest - {key};
        done := done + {key};
      }
    }

    /** One step of `ToggleFavoriteSelection`: `key` joins the flipped keys `done`. */
    method ToggleOne(key: string, ghost pairs0: map<string, Pair>, ghost fav0: seq<string>, ghost done: set<string>)
      requires pairSet.Valid() && key !in done
      requires pairSet.pairs == FlipAll(pairs0, done)
      requires FlippedPool(pairSet.favInflatedKeys, fav0, pairs0, done)
      modifies pairSet`pairs, pairSet`favInflatedKeys, pairSet`cachedFavoritesKeys
      ensures pairSet.Valid()
      ensures pairSet.pairs == FlipAll(pairs0, done + {key})
      ensures FlippedPool(pairSet.favInflatedKeys, fav0, pairs0, done + {key})
    {
      FlipAllOneMore(pairs0, done, key);
      ghost var fav1 := pairSet.favInflatedKeys;
      assert key in pairs0 ==> pairSet.pairs[key] == pairs0[key];
      pairSet.ToggleFavorite(key);
      FlippedPoolOneMore(fav1, pairSet.favInflatedKeys, fav0, pairs0, done, key);
    }

    /**
     * A new set named "New Set" holding a fresh copy of each selected card:
     * the same back text, weight 1, not a favourite. The edited set is not
     * changed.
     */
    method CreateSetFromSelection() returns (newSet: PairSet)
      requires pairSet.Valid()
      requires selectedPairs <= pairSet.pairs.Keys
      ensures fresh(newSet)
      ensures newSet.name == "New Set"
      ensures newSet.Valid() && newSet.CacheFresh()
      ensures CopiedCards(newSet.pairs, pairSet.pairs, selectedPairs)
      ensures RefilledWith(newSet.inflatedKeys, selectedPairs)
      ensures newSet.favInflatedKeys == [] && newSet.cachedFavoritesKeys == [] && newSet.forcedKeys == []
      ensures !newSet.reversedSides && !newSet.favoritesOnly
    {
      var pairs := pairSet.pairs;
      var keys := SeqOfSet(selectedPairs);
      var tuples := CopyTuples(pairs, keys);
      CopyAddsAll(pairs, keys, selectedPairs);
      newSet := NewSetFrom("New Set", tuples);
    }

    /**
     * `RemovePair` on every selected key: the selected cards are gone, from
     * the store, both pools and the favourites cache, and nothing else is.
     */
    method DeleteSelection()
      requires pairSet.Valid()
      modifies pairSet`pairs, pairSet`inflatedKeys, pairSet`favInflatedKeys,
               pairSet`cachedFavoritesKeys, pairSet`cachedSortedKeys
      ensures pairSet.Valid()
      ensures pairSet.pairs == old(pairSet.pairs) - selectedPairs
      ensures pairSet.inflatedKeys == Omit(old(pairSet.inflatedKeys), selectedPairs)
      ensures pairSet.favInflatedKeys == Omit(old(pairSet.favInflatedKeys), selectedPairs)
      ensures pairSet.cachedFavoritesKeys == Omit(old(pairSet.cachedFavoritesKeys), selectedPairs)
      ensures selectedPairs != {} ==> pairSet.CacheFresh()
      ensures selectedPairs == {} ==> pairSet.cachedSortedKeys == old(pairSet.cachedSortedKeys)
    {
      ghost var pairs0, pool0, favPool0, favCache0 :=
        pairSet.pairs, pairSet.inflatedKeys, pairSet.favInflatedKeys, pairSet.cachedFavoritesKeys;
      var rest := selectedPairs;
      ghost var done: set<string> := {};
      OmitNothing(pool0, {});
      OmitNothing(favPool0, {});
      OmitNothing(favCache0, {});
      while rest != {}
        invariant rest <= selectedPairs && done == selectedPairs - rest
        invariant pairSet.Valid()
        invariant pairSet.pairs == pairs0 - done
        invariant pairSet.inflatedKeys == Omit(pool0, done)
        invariant pairSet.favInflatedKeys == Omit(favPool0, done)
        invariant pairSet.cachedFavoritesKeys == Omit(favCache0, done)
        invariant done != {} ==> pairSet.CacheFresh()
        invariant done == {} ==> pairSet.cachedSortedKeys == old(pairSet.cachedSortedKeys)
        decreases rest
      {
        var key :| key in rest;
        OmitOmit(pool0, done, {key});
        OmitOmit(favPool0, done, {key});
        OmitOmit(favCache0, done, {key});
        assert pairs0 - done - {key} == pairs0 - (done + {key});
        pairSet.RemovePair(key);
        rest := rest - {key};
        done := done + {key};
      }
      assert done == selectedPairs;
    }
  }
}
