/**
 * The practice screen: it shows one card at a time, and a swipe answers it.
 * Swiping up (known) lowers the card's weight; swiping down (not known)
 * raises it and forces the card to come back. Either way the next card is
 * drawn, so each swipe is exactly one round of the forced queue (`Step`).
 */
module Practice {
  import opened Optional
  import opened Forcing
  import opened PairSets

  /** `next == nil ? nil : set.pairs[next!]`: the card to show, nil for a key that is gone. */
  function CardFor(pairs: map<string, Pair>, next: Option<string>): (card: Option<Pair>)
    ensures card.Some? <==> next.Some? && next.value in pairs
    ensures card.Some? ==> card.value == pairs[next.value]
  {
    if next.Some? && next.value in pairs then Some(pairs[next.value]) else None
  }

  /** A refilled pool of a non-empty eligible set is not empty. */
  lemma RefilledNonEmpty(pool: seq<string>, eligible: set<string>, k: string)
    ensures RefilledWith(pool, eligible) && k in eligible ==> k in pool && pool != []
  {
  }

  class PracticeView {
    const pairSet: PairSet
    var displayedPair: Option<Pair>

    constructor (pairSet: PairSet)
      ensures this.pairSet == pairSet && displayedPair == None
    {
      this.pairSet := pairSet;
      displayedPair := None;
    }

    /**
     * `getNextPair()`: draw the next key and show its card. A forced key
     * that has been deleted meanwhile shows no card at all.
     */
    method GetNextPair()
      requires pairSet.Valid()
      modifies this`displayedPair, pairSet`forcedKeys, pairSet`inflatedKeys, pairSet`favInflatedKeys
      ensures pairSet.Valid()
      ensures pairSet.forcedKeys == Tick(old(pairSet.forcedKeys)).queue
      ensures Tick(old(pairSet.forcedKeys)).fired.Some? ==>
        displayedPair == CardFor(pairSet.pairs, Tick(old(pairSet.forcedKeys)).fired)
      ensures Tick(old(pairSet.forcedKeys)).fired.None? ==>
        (displayedPair.None? <==> (if pairSet.favoritesOnly then pairSet.favInflatedKeys else pairSet.inflatedKeys) == [])
      ensures Tick(old(pairSet.forcedKeys)).fired.None? && !pairSet.favoritesOnly && pairSet.pairs != map[] ==>
        displayedPair.Some?
      ensures displayedPair.Some? ==>
        displayedPair.value.front in pairSet.pairs && pairSet.pairs[displayedPair.value.front] == displayedPair.value
    {
      var next := pairSet.GetNext();
      if pairSet.pairs != map[] {
        ghost var k :| k in pairSet.pairs;
        RefilledNonEmpty(pairSet.inflatedKeys, pairSet.pairs.Keys, k);
      }
      displayedPair := CardFor(pairSet.pairs, next);
    }

    /** Swipe up, the card was known: `decrementProbability`, then the next card. */
    method SwipeUp()
      requires pairSet.Valid() && displayedPair.Some?
      modifies this`displayedPair, pairSet`pairs, pairSet`forcedKeys, pairSet`inflatedKeys, pairSet`favInflatedKeys
      ensures pairSet.Valid()
      ensures pairSet.pairs.Keys == old(pairSet.pairs.Keys)
      ensures pairSet.forcedKeys == Step(old(pairSet.forcedKeys), None).queue
      ensures Staggered(old(pairSet.forcedKeys), ForcedDelay - 1) ==> Staggered(pairSet.forcedKeys, ForcedDelay - 1)
      ensures Step(old(pairSet.forcedKeys), None).fired.Some? ==>
        displayedPair == CardFor(pairSet.pairs, Step(old(pairSet.forcedKeys), None).fired)
      ensures Step(old(pairSet.forcedKeys), None).fired.None? && !pairSet.favoritesOnly && pairSet.pairs != map[] ==>
        displayedPair.Some?
    {
      var front := displayedPair.value.front;
      pairSet.DecrementProbability(front);
      ghost var queue0 := pairSet.forcedKeys;
      GetNextPair();
      if Staggered(queue0, ForcedDelay - 1) {
        StepSettles(queue0, None);
      }
    }

    /** The key a swipe down on the shown card queues, if any (see `Pushed`). */
    ghost function ForcedByMiss(): Option<string>
      reads this, pairSet
      requires displayedPair.Some?
    {
      Pushed(pairSet.pairs, displayedPair.value.front)
    }

    /**
     * Swipe down, the card was not known: `incrementProbability`, then
     * `ForcePair` so that it comes back, then the next card.
     */
    method SwipeDown()
      requires pairSet.Valid() && displayedPair.Some?
      modifies this`displayedPair, pairSet`pairs, pairSet`forcedKeys, pairSet`inflatedKeys, pairSet`favInflatedKeys
      ensures pairSet.Valid()
      ensures pairSet.pairs.Keys == old(pairSet.pairs.Keys)
      ensures pairSet.forcedKeys == Step(old(pairSet.forcedKeys), old(ForcedByMiss())).queue
      ensures Staggered(old(pairSet.forcedKeys), ForcedDelay - 1) ==> Staggered(pairSet.forcedKeys, ForcedDelay - 1)
      ensures Step(old(pairSet.forcedKeys), old(ForcedByMiss())).fired.Some? ==>
        displayedPair == CardFor(pairSet.pairs, Step(old(pairSet.forcedKeys), old(ForcedByMiss())).fired)
      ensures Step(old(pairSet.forcedKeys), old(ForcedByMiss())).fired.None? ==>
        !pairSet.favoritesOnly && pairSet.pairs != map[] ==> displayedPair.Some?
    {
      var front := displayedPair.value.front;
      ghost var push := ForcedByMiss();
      pairSet.IncrementProbability(front);
      pairSet.ForcePair(front);
      ghost var queue0 := old(pairSet.forcedKeys);
      assert pairSet.forcedKeys == if push.Some? then queue0 + [KeyCounter(push.value, ForcedDelay)] else queue0;
      GetNextPair();
      if Staggered(queue0, ForcedDelay - 1) {
        StepSettles(queue0, push);
      }
    }
  }

  /** What `ForcePair` queues: the key if it is still a key of the set, else nothing. */
  function Pushed(pairs: map<string, Pair>, key: string): (push: Option<string>)
    ensures push.Some? <==> key in pairs
    ensures push.Some? ==> push.value == key
  {
    if key in pairs then Some(key) else None
  }
}
