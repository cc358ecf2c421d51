# Pairs: a verified model of the flashcard store

Pairs is an iOS flashcard app. A card set (`PairSet`) maps each card front
to a card: front, back, a weight (`probability`, at least 1) and a
favourite flag. The set also keeps:

- two sorted key caches: all keys, and the favourite keys;
- two sampling pools: `inflatedKeys` and `favInflatedKeys`. A key may occur
  in a pool several times. The next card is drawn at random from a pool.
- a forced-repeat queue: keys with a countdown of 10 draws. A wrongly
  answered card is queued so that it comes back.
- a plain-text importer.

The views combine these operations:

- The set editor filters the card list by a search text. It also favourites,
  copies or deletes the selected cards.
- The card editor renames a card by deleting it and inserting it again.
- The practice screen demotes a known card, or promotes and re-queues an
  unknown one, and then draws the next card.

This project models those pieces in Dafny and proves their contracts.

Module layout:

- **Optional**: `Option`.
- **Strings**:
  - lower-casing and the case-insensitive key order of the caches;
  - the whitespace and newline classes of the importer;
  - the substring test of the search.
- **Sequences**: the array operations the store uses, on `seq<string>`:
  - `removeAll(where:)` as `Omit`;
  - `firstIndex(of:)` with `remove(at:)`;
  - `Array(keys)`;
  - `randomElement()`.
- **Sorting**: the key sort, as an insertion sort ordered by lower-cased text.
- **Parsing**: the import format, as specification functions.
- **Forcing**: the forced queue as a value, with the ten-draw property.
- **PairSets**:
  - the `Pair` datatype;
  - the specification of bulk insertion;
  - the store invariants (`StateOk`) and one lemma per mutation that keeps them;
  - the class `PairSet`, whose methods mutate its fields in place.
- **EditPairs**: the class `EditPairsView`, with its filter and selection operations.
- **EditPair**: the class `EditPairView`, with its legality flag and rename.
- **Practice**: the class `PracticeView`, with its two swipe handlers and `getNextPair`.
- **Scenarios**: concrete runs:
  - a duplicate import;
  - a set with a single card;
  - a forced key that outlives its card;
  - the favourite round trip.
  - `SingleCardAlwaysDrawn`, `ToggleTwiceRestores`, `FavoriteIgnoresWeight` and `DrawWithLoneForced` take any set as input; they are not fixed inputs.

How the model treats the source's effects:

- **Randomness.** `randomElement()` and the enumeration order of dictionary
  keys and `Set` are nondeterministic choices (`:|`). Only "some element" and
  "each element once" are promised.
- **Force-unwraps.** Each `!` on a dictionary lookup becomes a precondition
  where the caller must guarantee it. Examples are `CreateSetFromSelection`
  and the `EditPairView` constructor. Where the store's invariants guarantee
  it, the `!` is discharged by proof. Examples are the `firstIndex(of:)!` in
  `RemovePair` and `toggleFavorite`, and the filter's `pairs[key]!`.
- **Frames.** Methods use field-granular frames (`modifies this`pairs, ...`),
  so everything a method does not name is unchanged. For example, `RemovePair`
  does not touch `forcedKeys`. `CreateSetFromSelection` modifies nothing, so
  the edited set is unchanged.

Behaviours of the code that the model keeps as written:

- **A forced key outlives its card.** `RemovePair` leaves the forced queue
  alone, and `getNext` returns a forced key without checking that it is still a
  key. The practice screen then shows no card (`ForcedKeyOutlivesDeletion`).
- **Favouriting ignores weight.** Favouriting appends one favourite-pool copy
  whatever the weight is. Un-favouriting removes every copy. So a card's
  copies in the favourite pool do not track its weight.
- **The weight ceiling is an early return.** It compares against the pool size
  divided by 10, rounded down, before the call.
- **The queue can jam.** Two forced keys pushed before one draw share a
  countdown. After the first one fires, the second one's countdown passes zero
  and never fires again. It also blocks every key behind it
  (`DoublePushJams`, `JammedQueueNeverFires`). The practice screen pushes at
  most one key per draw, and under that rule every forced key comes back on
  the tenth draw (`ForcedReturnsOnTenthDraw`).
- **The clash check on rename can be stale.** The card editor's save step
  trusts the clash flag computed at the last edit. If the new front has become
  another card's key since then, the insert fails. The favourite toggle then
  flips that other card; `Disappear` states this case too.

## Model

| member | source | states |
|---|---|---|
| Strings.LowerChar | Pairs/PairSet.swift:26-28 | an ASCII upper-case letter maps to its lower-case letter; every other character is unchanged |
| Strings.Lowercased | Pairs/PairSet.swift:26-28 | lower-casing keeps the length and lower-cases each character |
| Strings.LexLe | Pairs/PairSet.swift:27 | `String <` on the lower-cased texts, as its non-strict side: character-by-character lexicographic order on code points; `LexLeTotal`, `LexLeTransitive`, `LexLeAntisymmetric` and `LexLeReflexive` give its properties |
| Strings.LexLeTotal | Pairs/PairSet.swift:26-28 | any two texts are comparable in the lexicographic order |
| Strings.LexLeTransitive | Pairs/PairSet.swift:26-28 | the lexicographic order is transitive |
| Strings.LexLeAntisymmetric | Pairs/PairSet.swift:26-28 | texts that are mutually lexicographically ordered are equal |
| Strings.LexLeReflexive | Pairs/PairSet.swift:26-28 | every text is ordered below itself |
| Strings.KeyLeTotal | Pairs/PairSet.swift:26-28 | any two keys are comparable by their lower-cased text |
| Strings.KeyLeTransitive | Pairs/PairSet.swift:32-34 | the order by lower-cased text is transitive |
| Strings.KeyLeIgnoresCase | Pairs/PairSet.swift:32-34 | keys that lower-case to the same text are ordered both ways |
| Strings.KeyLe | Pairs/PairSet.swift:26-28 | the cache order: compare the lower-cased texts lexicographically; `KeyLeTotal`, `KeyLeTransitive` and `KeyLeIgnoresCase` give its properties |
| Strings.IsNewline | Pairs/PairSet.swift:52-53 | the `.newlines` characters: U+000A to U+000D, U+0085, U+2028 and U+2029 |
| Strings.IsWhitespace | Pairs/PairSet.swift:42-44 | `Character.isWhitespace`: the characters with the Unicode White_Space property |
| Strings.IsBlank | Pairs/PairSet.swift:42-44 | the `removeAll` test: a line is empty or all its characters are whitespace; `DropBlankMembers` says these are exactly the lines dropped |
| Strings.Contains | Pairs/EditPairsView.swift:150 | `contains`: the search text is a prefix of some suffix of the text; `ContainsAt` restates it as an occurrence at an index |
| Strings.ContainsAt | Pairs/EditPairsView.swift:150 | `contains` holds exactly when the search text occurs at some index |
| Sequences.OmitMembers | Pairs/PairSet.swift:96 | `removeAll(where:)` keeps an element exactly when it was there and is not removed |
| Sequences.OmitMultiset | Pairs/PairSet.swift:99 | `removeAll(where:)` removes every copy of a removed key and keeps every copy of the rest |
| Sequences.OmitSubsequence | Pairs/PairSet.swift:149 | `removeAll(where:)` keeps the relative order of what stays |
| Sequences.OmitOmit | Pairs/EditPairsView.swift:130-133 | removing one set of keys and then another is removing both sets at once |
| Sequences.OmitDistinct | Pairs/PairSet.swift:176-178 | removing elements from a repeat-free list leaves it repeat-free |
| Sequences.Omit | Pairs/PairSet.swift:96 | `removeAll(where:)` with a test for membership in a set of keys; it never makes a list longer; `OmitMembers`, `OmitMultiset` and `OmitSubsequence` give its contents |
| Sequences.FirstIndex | Pairs/PairSet.swift:125 | `firstIndex(of:)` is nil exactly when the key is absent; otherwise it is the first index that holds the key |
| Sequences.RemoveAtMultiset | Pairs/PairSet.swift:127 | `remove(at:)` takes out exactly one copy of the element at that index |
| Sequences.RemoveAt | Pairs/PairSet.swift:127 | `remove(at:)`: the list is one element shorter; `RemoveAtMultiset` gives which element goes |
| Sequences.RemoveFirst | Pairs/PairSet.swift:125-128 | removing the first copy of a key, if any; `RemoveFirstAt` ties it to `firstIndex(of:)` then `remove(at:)` |
| Sequences.RemoveFirstAt | Pairs/PairSet.swift:125-128 | removing the first copy is the `firstIndex`-then-`remove(at:)` sequence, and a no-op when the key is absent |
| Sequences.RemoveFirstMultiset | Pairs/PairSet.swift:130-133 | exactly one copy of the key goes if there was one, and every other element stays |
| Sequences.RemoveAtDistinct | Pairs/PairSet.swift:95 | on a repeat-free list, removing at the found index removes the key everywhere |
| Sequences.SeqOfSet | Pairs/PairSet.swift:183 | `Array(pairs.keys)` lists each key exactly once and nothing else |
| Sequences.RandomElement | Pairs/PairSet.swift:185 | `randomElement()` is nil exactly for an empty pool and otherwise a member of it |
| Sorting.InsertByKey | Pairs/PairSet.swift:146-147 | inserting into an ordered cache keeps it ordered and adds exactly that key |
| Sorting.SortByKey | Pairs/PairSet.swift:32-34 | the sort result is ordered by lower-cased text and is a permutation of its input |
| Sorting.SortedOmit | Pairs/PairSet.swift:95-101 | removing keys from an ordered cache keeps it ordered |
| Parsing.SplitLines | Pairs/PairSet.swift:40 | splitting at newlines yields at least one line |
| Parsing.SplitLinesNoNewline | Pairs/PairSet.swift:40 | no line of the split contains a newline character |
| Parsing.JoinSplitLines | Pairs/PairSet.swift:40 | joining the split lines with "\n" gives back a text whose only newline is "\n" |
| Parsing.SplitJoinLines | Pairs/PairSet.swift:40 | splitting newline-free lines joined by "\n" gives back those lines |
| Parsing.SplitAfterNewline | Pairs/PairSet.swift:40 | a leading "\n" ends an empty first line and the rest is split as before |
| Parsing.StripNewlines | Pairs/PairSet.swift:52-53 | `removeAll(where: { $0.isNewline })` on one line: it never makes the line longer; `StripNewlinesNoop` shows it changes no split line |
| Parsing.DropBlank | Pairs/PairSet.swift:41-45 | the blank-line filter never adds lines; `DropBlankMembers` gives which lines survive |
| Parsing.PairUp | Pairs/PairSet.swift:47-55 | n lines give n / 2 cards, rounded down; `PairUpAt` gives which lines form card j |
| Parsing.ParseText | Pairs/PairSet.swift:37-58 | `getPairsFrom(text:)`: as many cards as half the non-blank lines, rounded down |
| Parsing.StripNewlinesNoop | Pairs/PairSet.swift:52-53 | stripping newline characters from a split line changes nothing |
| Parsing.DropBlankMembers | Pairs/PairSet.swift:41-45 | a line survives exactly when it was there and is neither empty nor all whitespace |
| Parsing.DropBlankAppend | Pairs/PairSet.swift:41-45 | the filter judges each line on its own: the lines that survive from two blocks of lines joined together are those surviving from the first block followed by those surviving from the second |
| Parsing.PairUpAt | Pairs/PairSet.swift:47-55 | n surviving lines give n / 2 cards, rounded down; card j is lines 2j and 2j+1 |
| Parsing.FlattenPairUp | Pairs/PairSet.swift:47-55 | the cards hold exactly the first 2·(n / 2) surviving lines, so an odd last line is dropped |
| Parsing.PairUpFlatten | Pairs/PairSet.swift:47-55 | writing cards out as lines and importing them gives back the cards |
| Parsing.ParsedLinesClean | Pairs/PairSet.swift:40-45 | every line handed to the pairing step is newline-free and not blank |
| Parsing.ParseBlankLineExample | Pairs/AddPairsView.swift:108 | a blank line between cards is ignored |
| Parsing.ParseOddLineExample | Pairs/AddPairsView.swift:108 | an odd last line is ignored |
| Parsing.ParseEmptyExample | Pairs/PairSet.swift:37-58 | an empty text gives no cards |
| Forcing.Run | Pairs/PairSet.swift:161-171 | a run of rounds yields one result per draw |
| Forcing.TickSettles | Pairs/PairSet.swift:162-170 | a draw takes an increasing queue with countdowns in 1..10 to one with countdowns in 1..9 |
| Forcing.PushStaggered | Pairs/PairSet.swift:154-159 | a newly forced key with countdown 10 joins a settled queue at the back, and the queue stays increasing |
| Forcing.StepSettles | Pairs/PairSet.swift:154-171 | one push and one draw keep a settled queue settled |
| Forcing.TickFires | Pairs/PairSet.swift:166-169 | in an increasing queue only the front entry can reach zero, and it is the one returned |
| Forcing.TickMoves | Pairs/PairSet.swift:163-168 | an entry that does not fire moves up at most one place with its countdown one lower |
| Forcing.FiresOnTime | Pairs/PairSet.swift:154-171 | with at most one push per draw, the entry with countdown c is returned by the c-th draw |
| Forcing.ForcedReturnsOnTenthDraw | Pairs/PairSet.swift:198-201 | a key forced before a draw is returned by the tenth draw counting that one |
| Forcing.JammedQueueNeverFires | Pairs/PairSet.swift:166 | once the front countdown is at or below zero, no later draw returns a forced key |
| Forcing.DoublePushJams | Pairs/PairSet.swift:163-169 | two keys forced before one draw: the first fires and the second then jams |
| Forcing.TickSingle | Pairs/PairSet.swift:163-169 | a lone forced key counts down and fires exactly at zero |
| Forcing.Decremented | Pairs/PairSet.swift:163-165 | the decrement loop keeps every entry of the queue |
| Forcing.Tick | Pairs/PairSet.swift:162-171 | the queue half of `getNext()`: one entry leaves exactly when one fires, and only a front entry at countdown 1 fires, giving its key |
| Forcing.Step | Pairs/PairSet.swift:154-171 | an optional `ForcePair` with a `KeyCounter` at its default countdown of 10 (lines 198-201), then one draw: the queue grows by the push and shrinks by the firing |
| PairSets.AddAllSnoc | Pairs/PairSet.swift:64-69 | adding one more tuple is one more `AddPair` on the result so far |
| PairSets.AddAllKeeps | Pairs/PairSet.swift:75-77 | bulk insertion never changes an existing card |
| PairSets.AddAllKeys | Pairs/PairSet.swift:61-72 | the keys afterwards are the old keys plus the added fronts, and every added front was new |
| PairSets.AddedDistinct | Pairs/PairSet.swift:61-72 | no front is added twice, and at most one per tuple, so the count is at most the number of tuples |
| PairSets.AddAllSize | Pairs/PairSet.swift:61-72 | the store grows by exactly the number of added fronts |
| PairSets.AddAllFirstWins | Pairs/PairSet.swift:64-69 | among tuples with one front, the first wins, with weight 1 and not a favourite |
| PairSets.AddAllDistinctFronts | Pairs/PairSet.swift:61-72 | tuples with distinct new fronts are all added, in order |
| PairSets.NewPair | Pairs/PairSet.swift:191-196 | a `Pair` made from front and back gets its defaults: weight 1, not a favourite |
| PairSets.AddOne | Pairs/PairSet.swift:75-79 | one `AddPair` on the store: nothing changes when the front is a key, otherwise a new card is added; `AddAllKeeps` and `AddAllKeys` give its effect |
| PairSets.AddAll | Pairs/PairSet.swift:64-69 | the store after the loop adds the tuples in order; `AddAllKeeps`, `AddAllKeys` and `AddAllFirstWins` give its contents |
| PairSets.Added | Pairs/PairSet.swift:64-69 | the fronts the loop actually inserts, in order; `AddedDistinct` and `AddAllSize` tie them to the count returned |
| PairSets.Favorites | Pairs/PairSet.swift:176-178 | the keys whose card is a favourite, which the favourites-only refill keeps; `FavRefillKeeps` and `DrawFromPool` use it |
| PairSets.WithFavorite | Pairs/PairSet.swift:142 | the store with one card's flag set; `ToggleFavorite` applies it with the flag negated, and `FavoriteTwice` shows that setting and clearing it restores the store |
| PairSets.AddKeeps | Pairs/PairSet.swift:78-79 | a new card with one pool copy keeps the store invariants |
| PairSets.BackKeeps | Pairs/PairSet.swift:90 | a new back text keeps the store invariants |
| PairSets.IncrementKeeps | Pairs/PairSet.swift:111-115 | one more weight point, with one more copy in each pool of the key, keeps the invariants |
| PairSets.DecrementKeeps | Pairs/PairSet.swift:122-124 | lowering a weight above 1 keeps every weight at least 1 |
| PairSets.PoolRemoveKeeps | Pairs/PairSet.swift:125-128 | removing the first pool copy keeps the invariants |
| PairSets.FavPoolRemoveKeeps | Pairs/PairSet.swift:129-134 | removing the first favourite-pool copy keeps the invariants |
| PairSets.RemoveFirstWithin | Pairs/PairSet.swift:125-134 | removing the first copy of a key adds nothing to a pool |
| PairSets.RemoveKeeps | Pairs/PairSet.swift:93-102 | deleting a card and omitting its key everywhere keeps the invariants, including the ordered caches |
| PairSets.KeyCacheKeeps | Pairs/PairSet.swift:31-35 | a rebuilt key cache keeps the invariants |
| PairSets.FavoriteOnKeeps | Pairs/PairSet.swift:144-147 | a new favourite gets one pool copy and a place in the re-sorted favourites cache, which still lists each favourite once |
| PairSets.FavoriteOffKeeps | Pairs/PairSet.swift:148-151 | an un-favourited key loses all pool copies and its cache entry, and the invariants hold |
| PairSets.RefillKeeps | Pairs/PairSet.swift:182-184 | refilling the empty pool with every key once keeps the invariants |
| PairSets.FavRefillKeeps | Pairs/PairSet.swift:175-179 | refilling the empty favourite pool with each favourite key once keeps the invariants |
| PairSets.PairSet.constructor | Pairs/PairSet.swift:11-23 | a new set has the given name and empty store, pools, queue and caches; it satisfies the invariants |
| PairSets.PairSet.SortFavoritesCache | Pairs/PairSet.swift:25-29 | the favourites cache becomes ordered by lower-cased text, with the same keys and multiplicities |
| PairSets.PairSet.RebuildSortedKeysCache | Pairs/PairSet.swift:31-35 | the key cache becomes the keys, each once, ordered by lower-cased text |
| PairSets.PairSet.GetPairsFrom | Pairs/PairSet.swift:37-59 | the loop yields the import-format result: ⌊n/2⌋ cards for n non-blank lines, holding the first 2·⌊n/2⌋ of them in order |
| PairSets.PairSet.AddFromTuples | Pairs/PairSet.swift:61-72 | the store becomes the bulk insertion of the tuples and the pool gains the added fronts; the result counts them and is at most the number of tuples; the key cache is rebuilt |
| PairSets.PairSet.AddPair | Pairs/PairSet.swift:74-84 | result false and nothing changed when the front is a key; otherwise a new card with weight 1, not a favourite, and one pool copy appended; the key cache is rebuilt only on request |
| PairSets.PairSet.ChangeBackOf | Pairs/PairSet.swift:86-91 | only the back text of an existing card changes; no-op when absent |
| PairSets.PairSet.RemovePair | Pairs/PairSet.swift:93-102 | the card and every occurrence of its key in pools and caches are removed, the rest keep their order, the forced queue is untouched |
| PairSets.PairSet.IncrementProbability | Pairs/PairSet.swift:104-116 | no-op when absent or when the weight is at least the pre-call pool size divided by 10; otherwise weight +1 and one copy appended to the pool, and to the favourite pool exactly when a favourite |
| PairSets.PairSet.DecrementProbability | Pairs/PairSet.swift:118-135 | no-op when absent; the weight drops by 1 only when above 1; the first pool copy goes, and the first favourite-pool copy if a favourite |
| PairSets.PairSet.ToggleFavorite | Pairs/PairSet.swift:137-152 | no-op when absent; otherwise the flag flips; turning on appends one favourite-pool copy and one cache entry; turning off removes all copies from both |
| PairSets.PairSet.ForcePair | Pairs/PairSet.swift:154-159 | an existing key is queued with countdown 10; no-op when absent |
| PairSets.PairSet.GetNext | Pairs/PairSet.swift:161-188 | the queue advances by one tick; a fired key is returned even if deleted; otherwise the draw comes from the pool, which is left alone if it was not empty |
| PairSets.PairSet.DrawFromPool | Pairs/PairSet.swift:173-187 | an empty chosen pool is refilled with each eligible key once; the result is nil exactly when the pool is still empty, and otherwise a key from it, a favourite in favourites-only mode |
| EditPairs.FilterKeysMembers | Pairs/EditPairsView.swift:149-151 | the filter keeps exactly the keys whose front or back contains the search text |
| EditPairs.FilterKeysSubsequence | Pairs/EditPairsView.swift:149-151 | the filter keeps the cache order |
| EditPairs.FilterKeysOmit | Pairs/EditPairsView.swift:149-151 | filtering is omitting the non-matching keys |
| EditPairs.Matches | Pairs/EditPairsView.swift:150 | the filter test: front or back contains the search text; an empty search text matches every card |
| EditPairs.FilterKeys | Pairs/EditPairsView.swift:149-151 | `cachedKeys.filter { ... }`: never longer than the cache; `FilterKeysMembers` and `FilterKeysSubsequence` give its contents and order |
| EditPairs.FlipAll | Pairs/EditPairsView.swift:109-112 | flipping the selected flags keeps the keys |
| EditPairs.FlipAllOneMore | Pairs/EditPairsView.swift:110-111 | flipping one more selected key is one more `toggleFavorite`, and a no-op on an absent key |
| EditPairs.FlipAllTwice | Pairs/EditPairsView.swift:109-112 | by `ToggleFavoriteSelection`'s store ensures, running it twice on the same selection restores every card |
| EditPairs.FlippedPoolOneMore | Pairs/EditPairsView.swift:110-111 | one more `toggleFavorite` leaves a present former favourite no favourite-pool copy, gives a present new favourite exactly one, and changes nothing for an absent key |
| EditPairs.EditPairsView.ToggleOne | Pairs/EditPairsView.swift:111 | one loop step: the store and the favourite-pool counts are those with one more selected key flipped |
| EditPairs.CopyTuples | Pairs/EditPairsView.swift:120-122 | one tuple per selected key |
| EditPairs.CopyAddsAll | Pairs/EditPairsView.swift:118-123 | copying distinct selected keys into an empty set adds all of them, each with its back text, weight 1, not a favourite |
| EditPairs.CopyFrontsDistinct | Pairs/EditPairsView.swift:120-122 | the copied tuples' fronts are the selected keys, all different |
| EditPairs.NewSetFrom | Pairs/EditPairsView.swift:119-123 | `PairSet(name:)` then `AddFromTuples`: a fresh set with that name, exactly the added cards, each added front once in its pool, everything else empty and both flags off |
| EditPairs.EditPairsView.constructor | Pairs/EditPairsView.swift:15-19 | the editor starts with no search text, showing all cards, nothing selected |
| EditPairs.EditPairsView.Shown | Pairs/EditPairsView.swift:148 | the cache the list shows: the favourites cache in favourites mode and the key cache otherwise, the choice made at lines 148 and 153 |
| EditPairs.EditPairsView.FilterPairs | Pairs/EditPairsView.swift:146-155 | with no search text, the chosen cache unchanged; otherwise its order-preserving sub-list of keys whose front or back contains the text |
| EditPairs.EditPairsView.ToggleFavoriteSelection | Pairs/EditPairsView.swift:109-116 | each selected existing card's flag flips exactly once and every other card is unchanged; in the favourite pool a selected former favourite has no copy, a selected new favourite has exactly one, and every other key keeps its old number of copies; the invariants hold |
| EditPairs.EditPairsView.CreateSetFromSelection | Pairs/EditPairsView.swift:118-128 | a fresh set "New Set" holds exactly the selected keys, each with the source back text, weight 1, not a favourite, each once in its pool; the favourite pool, the favourites cache and the forced queue are empty, both mode flags are off, and the source set is unchanged |
| EditPairs.EditPairsView.DeleteSelection | Pairs/EditPairsView.swift:130-137 | every selected card is gone from the store, the pools and the favourites cache, and everything else is kept in order; the key cache is rebuilt when something was selected and left as it was when nothing was |
| EditPair.RenamedCards | Pairs/EditPairView.swift:54-55 | after a rename the old key is gone unless it is the new one, the new front holds the new texts with weight 1, other cards are kept |
| EditPair.RenameInPlace | Pairs/EditPairView.swift:46 | renaming a card to its own front resets its weight to 1 and keeps every other card |
| EditPair.FavoriteNewCard | Pairs/EditPairView.swift:55-58 | favouriting a just-inserted card is inserting it as a favourite |
| EditPair.GoneFromPool | Pairs/EditPairView.swift:54-55 | after the delete, a new front that was the old key or no key occurs in no pool |
| EditPair.Renamed | Pairs/EditPairView.swift:54-57 | the store after the rename: the old key deleted, then a new card under the new front with the new texts, weight 1 and the chosen flag; `RenamedCards` gives its contents |
| EditPair.RemoveThenAdd | Pairs/EditPairView.swift:54-55 | `RemovePair(key)` then `AddPair(rebuild: true)`: every copy of the old key goes from both pools and the favourites cache; the new card is added and appended once to the pool unless the new front is another card's key, in which case only the delete happens |
| EditPair.EditPairView.constructor | Pairs/EditPairView.swift:21-27 | the editor opens on an existing card with its front, back and flag, and no clash |
| EditPair.EditPairView.ChangeFront | Pairs/EditPairView.swift:45-51 | the clash flag is set exactly when the new front differs from the card's key and is already a key |
| EditPair.EditPairView.Disappear | Pairs/EditPairView.swift:52-60 | on a clash nothing changes; otherwise the old card goes and the new front holds the new texts, weight 1 and the chosen flag; it is appended once to the pool and, if a favourite, once to the favourite pool; no other card changes. When the new front became another card's key after the last edit, the old card still goes and the insert fails; with the flag on, that other card is toggled: it gains one favourite-pool copy and a cache entry, or loses every copy and its cache entry |
| Practice.CardFor | Pairs/PracticeView.swift:132 | the card shown is the drawn key's card, and none when nothing was drawn or the key is gone |
| Practice.Pushed | Pairs/PairSet.swift:155-158 | `ForcePair` queues the key exactly when it is still a key |
| Practice.PracticeView.constructor | Pairs/PracticeView.swift:15-17 | the screen starts with no card shown |
| Practice.PracticeView.GetNextPair | Pairs/PracticeView.swift:130-133 | one draw: the queue ticks; a fired key shows its card or none; otherwise a card is shown exactly when the pool is non-empty; a shown card is the store's card |
| Practice.PracticeView.SwipeUp | Pairs/PracticeView.swift:108-114 | a known card: one queue round without push, the keys unchanged, a settled queue stays settled |
| Practice.PracticeView.SwipeDown | Pairs/PracticeView.swift:116-123 | an unknown card: one queue round pushing the card if still a key, and a settled queue stays settled |
| Scenarios.AddTwiceKeepsFirst | Pairs/PairSet.swift:61-84 | importing one front twice adds one card with the first back text |
| Scenarios.SingleCardAlwaysDrawn | Pairs/PairSet.swift:173-187 | in any set whose only card is `k`, a draw the forced queue does not decide returns `k`, unless favourites-only mode is on and `k` is not a favourite |
| Scenarios.DrawWithLoneForced | Pairs/PairSet.swift:161-171 | with one forced key, a draw lowers its countdown or returns it at zero |
| Scenarios.ForcedKeyOutlivesDeletion | Pairs/PairSet.swift:93-102 | a forced key whose card was deleted is still returned by the tenth draw, and no card is shown for it |
| Scenarios.ToggleTwiceRestores | Pairs/PairSet.swift:137-152 | favouriting and un-favouriting a card restores the cards and the favourite pool exactly, and the favourites cache as a multiset |
| Scenarios.UnfavoriteRestores | Pairs/PairSet.swift:145-150 | omitting a just-appended key gives the list back, and the cache back as a multiset |
| Scenarios.UnfavoriteCache | Pairs/PairSet.swift:146-150 | omitting a key that was just added to a cache gives back the old cache as a multiset |
| Scenarios.FavoriteTwice | Pairs/PairSet.swift:142 | setting and clearing the flag restores the store |
| Scenarios.FavoriteIgnoresWeight | Pairs/PairSet.swift:144-145 | a new favourite has exactly one favourite-pool copy whatever its weight, and the weight is unchanged |

## Left out

- **SwiftUI and SwiftData.** Left out: layout, navigation, animations, the `editMode` reset after the bulk operations, the `modelContext.insert` of the new set, and persistence. They bind flags or store sets and decide nothing here.
- **Gestures.** The drag gesture's floating-point thresholds (40 points) are left out. The two branches are the methods `SwipeUp` and `SwipeDown`.
- **The unused `DeletePairs` helper.** It deletes by index into a list that is recomputed after each removal. It is not modelled.
- **Other views.** The clipboard and file reading that feed the importer are left out. So are the start, set-settings and app views.
- **Unicode.** `lowercased()` maps only ASCII letters. Whitespace and newlines are the Unicode White_Space characters and the `.newlines` set, taken one `char` per code point. Grapheme clustering and normalisation are not modelled; `contains` compares code points, case-sensitively.
- **Randomness.** `randomElement()` is any member of the pool. No probability distribution is modelled, so the weights matter only as pool copies.
- **Hash order.** The enumeration order of dictionary keys and of the selection `Set` is any order.
- **Sort ties.** Keys that lower-case alike may come out in either order. Only "ordered and a permutation" is promised.
- **`reserveCapacity`.** It has no effect on values and is not modelled.
- **Integer width.** `Int` is unbounded in the model. Weights and countdowns never come near 64 bits, because the ceiling keeps weights below the pool size.
- PairSets.PairSet.SortFavoritesCache: promises the order and the multiset, not the particular order Swift's sort picks among equal keys.
- PairSets.PairSet.ToggleFavorite: turning a favourite on promises the new cache as a multiset and sorted, not its order among keys that lower-case alike.
- EditPairs.EditPairsView.ToggleFavoriteSelection: states the number of favourite-pool copies of every key, not their order in the pool, which depends on the iteration order of the selection.
