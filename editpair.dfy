/**
 * The single-card editor. Typing a new front re-checks whether it clashes
 * with another card; leaving the editor applies the edit, unless it clashes,
 * by deleting the card and inserting it afresh under the new front.
 */
module EditPair {
  import opened Sequences
  import opened PairSets

  /** The store after the rename: `key` deleted, then a new card under `front`. */
  function Renamed(pairs: map<string, Pair>, key: string, front: string, back: string, favorite: bool): map<string, Pair>
  {
    (pairs - {key})[front := Pair(front, back, 1, favorite)]
  }

  /**
   * A rename replaces the old card by one with the new texts and weight 1
   * and leaves every other card as it was; the old key is gone unless it is
   * also the new one.
   */
  lemma RenamedCards(pairs: map<string, Pair>, key: string, front: string, back: string, favorite: bool)
    ensures Renamed(pairs, key, front, back, favorite).Keys == pairs.Keys - {key} + {front}
    ensures Renamed(pairs, key, front, back, favorite)[front] == Pair(front, back, 1, favorite)
    ensures forall k | k in pairs && k != key && k != front :: Renamed(pairs, key, front, back, favorite)[k] == pairs[k]
  {
  }

  /** Renaming a card to its own front resets its weight to 1 and keeps every other card. */
  lemma RenameInPlace(pairs: map<string, Pair>, key: string, back: string, favorite: bool)
    requires key in pairs
    ensures Renamed(pairs, key, key, back, favorite) == pairs[key := Pair(key, back, 1, favorite)]
  {
  }

  /** Making a just-inserted card a favourite is inserting it as a favourite. */
  lemma FavoriteNewCard(pairs: map<string, Pair>, front: string, back: string)
    ensures WithFavorite(pairs[front := NewPair(front, back)], front, true) == pairs[front := Pair(front, back, 1, true)]
  {
  }

  /**
   * After omitting the old key, a front that was the old key or no key at all
   * does not occur in a pool that held only keys.
   */
  lemma GoneFromPool(pool: seq<string>, pairs: map<string, Pair>, key: string, front: string)
    requires PoolOk(pool, pairs) && (front == key || front !in pairs)
    ensures front !in Omit(pool, {key})
  {
    OmitMembers(pool, {key});
  }

  /** `RemovePair(key)` then `AddPair(front, back, rebuild: true)`, the first half of the rename. */
  method RemoveThenAdd(s: PairSet, key: string, front: string, back: string)
    requires s.Valid()
    modifies s`pairs, s`inflatedKeys, s`favInflatedKeys, s`cachedFavoritesKeys, s`cachedSortedKeys
    ensures s.Valid() && s.CacheFresh()
    ensures front == key || front !in old(s.pairs) ==>
      s.pairs == (old(s.pairs) - {key})[front := NewPair(front, back)] &&
      s.inflatedKeys == Omit(old(s.inflatedKeys), {key}) + [front] &&
      front !in Omit(old(s.inflatedKeys), {key}) && front !in Omit(old(s.favInflatedKeys), {key})
    ensures front != key && front in old(s.pairs) ==>
      s.pairs == old(s.pairs) - {key} && s.inflatedKeys == Omit(old(s.inflatedKeys), {key})
    ensures s.favInflatedKeys == Omit(old(s.favInflatedKeys), {key})
    ensures s.cachedFavoritesKeys == Omit(old(s.cachedFavoritesKeys), {key})
  {
    ghost var pairs0, pool0, fav0 := s.pairs, s.inflatedKeys, s.favInflatedKeys;
    if front == key || front !in pairs0 {
      GoneFromPool(pool0, pairs0, key, front);
      GoneFromPool(fav0, pairs0, key, front);
    }
    s.RemovePair(key);
    var _ := s.AddPair(front, back, true);
  }

  class EditPairView {
    /** The set the card belongs to (`set` in the view; that word is taken in Dafny). */
    const pairSet: PairSet
    var key: string
    var newFront: string
    var newBack: string
    var isFavorite: bool
    var isIllegalKey: bool

    /** The clash flag is up to date: it is set exactly when the new front is another card's key. */
    ghost predicate LegalityCurrent()
      reads this, pairSet
    {
      isIllegalKey <==> newFront != key && newFront in pairSet.pairs
    }

    /** Opens the editor on an existing card, with its texts and flag filled in. */
    constructor (pairSet: PairSet, key: string)
      requires key in pairSet.pairs
      ensures this.pairSet == pairSet && this.key == key && newFront == key
      ensures newBack == pairSet.pairs[key].back && isFavorite == pairSet.pairs[key].favorite
      ensures !isIllegalKey && LegalityCurrent()
    {
      this.pairSet := pairSet;
      this.key := key;
      newFront := key;
      newBack := pairSet.pairs[key].back;
      isFavorite := pairSet.pairs[key].favorite;
      isIllegalKey := false;
    }

    /** `onChange(of: newFront)`: a new front is illegal when it is another card's key. */
    method ChangeFront(newKey: string)
      modifies this`newFront, this`isIllegalKey
      ensures newFront == newKey
      ensures isIllegalKey <==> newKey != key && newKey in pairSet.pairs
      ensures LegalityCurrent()
    {
      newFront := newKey;
      if newKey != key && newKey in pairSet.pairs {
        isIllegalKey := true;
      } else {
        isIllegalKey := false;
      }
    }

    /**
     * `onDisappear`: unless the new front clashes, `RemovePair(key)`, then
     * `AddPair(newFront, newBack, rebuild: true)`, then `toggleFavorite` if
     * the card is to be a favourite.
     */
    method Disappear()
      requires pairSet.Valid()
      modifies pairSet`pairs, pairSet`inflatedKeys, pairSet`favInflatedKeys,
               pairSet`cachedFavoritesKeys, pairSet`cachedSortedKeys
      ensures pairSet.Valid()
      ensures isIllegalKey ==> pairSet.pairs == old(pairSet.pairs) && pairSet.inflatedKeys == old(pairSet.inflatedKeys)
      ensures isIllegalKey ==> pairSet.favInflatedKeys == old(pairSet.favInflatedKeys)
      ensures isIllegalKey ==> pairSet.cachedFavoritesKeys == old(pairSet.cachedFavoritesKeys)
      ensures isIllegalKey ==> pairSet.cachedSortedKeys == old(pairSet.cachedSortedKeys)
      ensures !isIllegalKey ==> pairSet.CacheFresh()
      ensures !isIllegalKey && (newFront == key || newFront !in old(pairSet.pairs)) ==>
        pairSet.inflatedKeys == Omit(old(pairSet.inflatedKeys), {key}) + [newFront]
      ensures !isIllegalKey && (newFront == key || newFront !in old(pairSet.pairs)) ==>
        pairSet.pairs == Renamed(old(pairSet.pairs), key, newFront, newBack, isFavorite)
      ensures !isIllegalKey && (newFront == key || newFront !in old(pairSet.pairs)) ==>
        newFront !in Omit(old(pairSet.inflatedKeys), {key})
      ensures !isIllegalKey && (newFront == key || newFront !in old(pairSet.pairs)) ==>
        pairSet.favInflatedKeys == Omit(old(pairSet.favInflatedKeys), {key}) + (if isFavorite then [newFront] else [])
      ensures !isIllegalKey && (newFront == key || newFront !in old(pairSet.pairs)) ==>
        newFront !in Omit(old(pairSet.favInflatedKeys), {key})
      ensures !isIllegalKey && (newFront == key || newFront !in old(pairSet.pairs)) ==>
        multiset(pairSet.cachedFavoritesKeys) ==
        multiset(Omit(old(pairSet.cachedFavoritesKeys), {key})) + (if isFavorite then multiset{newFront} else multiset{})
      ensures !isIllegalKey && newFront != key && newFront in old(pairSet.pairs) ==>
        pairSet.pairs == if isFavorite
          then WithFavorite(old(pairSet.pairs) - {key}, newFront, !old(pairSet.pairs)[newFront].favorite)
          else old(pairSet.pairs) - {key}
      ensures !isIllegalKey && newFront != key && newFront in old(pairSet.pairs) ==>
        pairSet.inflatedKeys == Omit(old(pairSet.inflatedKeys), {key})
      ensures !isIllegalKey && newFront != key && newFront in old(pairSet.pairs) && !isFavorite ==>
        pairSet.favInflatedKeys == Omit(old(pairSet.favInflatedKeys), {key}) &&
        pairSet.cachedFavoritesKeys == Omit(old(pairSet.cachedFavoritesKeys), {key})
      ensures !isIllegalKey && newFront != key && newFront in old(pairSet.pairs) && isFavorite &&
              old(pairSet.pairs)[newFront].favorite ==>
        pairSet.favInflatedKeys == Omit(Omit(old(pairSet.favInflatedKeys), {key}), {newFront}) &&
        pairSet.cachedFavoritesKeys == Omit(Omit(old(pairSet.cachedFavoritesKeys), {key}), {newFront})
      ensures !isIllegalKey && newFront != key && newFront in old(pairSet.pairs) && isFavorite &&
              !old(pairSet.pairs)[newFront].favorite ==>
        pairSet.favInflatedKeys == Omit(old(pairSet.favInflatedKeys), {key}) + [newFront] &&
        multiset(pairSet.cachedFavoritesKeys) == multiset(Omit(old(pairSet.cachedFavoritesKeys), {key})) + multiset{newFront}
    {
      if isIllegalKey {
        return;
      }
      ghost var pairs0 := pairSet.pairs;
      RemoveThenAdd(pairSet, key, newFront, newBack);
      if isFavorite {
        pairSet.ToggleFavorite(newFront);
        if newFront == key || newFront !in pairs0 {
          FavoriteNewCard(pairs0 - {key}, newFront, newBack);
        }
      }
    }
  }
}
