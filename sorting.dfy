/**
 * The sort used for both key caches: `sorted { a.lowercased() < b.lowercased() }`.
 * Keys that lower-case alike may come out in either order, so what is promised
 * of a sort is only that its result is ordered by KeyLe and is a permutation
 * of its input.
 */
module Sorting {
  import opened Strings
  import opened Sequences

  /** Ordered by lower-cased text: no later key lower-cases below an earlier one. */
  predicate SortedByKey(s: seq<string>)
  {
    forall i, j :: 0 <= i < j < |s| ==> KeyLe(s[i], s[j])
  }

  /** `y` may precede every element of `s`. */
  ghost predicate BelowAll(y: string, s: seq<string>)
  {
    forall z :: z in s ==> KeyLe(y, z)
  }

  lemma BelowSorted(y: string, s: seq<string>)
    requires SortedByKey(s) && s != [] && KeyLe(y, s[0])
    ensures BelowAll(y, s)
  {
    forall z | z in s
      ensures KeyLe(y, z)
    {
      var j :| 0 <= j < |s| && s[j] == z;
      if j > 0 {
        KeyLeTransitive(y, s[0], z);
      }
    }
  }

  lemma BelowPermutation(y: string, s: seq<string>, t: seq<string>)
    requires BelowAll(y, s) && multiset(s) == multiset(t)
    ensures BelowAll(y, t)
  {
    forall z | z in t
      ensures KeyLe(y, z)
    {
      assert z in multiset(t);
    }
  }

  lemma SortedCons(y: string, s: seq<string>)
    requires SortedByKey(s) && BelowAll(y, s)
    ensures SortedByKey([y] + s)
  {
    var r := [y] + s;
    forall i, j | 0 <= i < j < |r|
      ensures KeyLe(r[i], r[j])
    {
      if i > 0 {
        assert r[i] == s[i - 1] && r[j] == s[j - 1];
      } else {
        assert r[j] in s;
      }
    }
  }

  /** Inserts `x` into an ordered list, keeping it ordered. */
  function InsertByKey(x: string, s: seq<string>): (r: seq<string>)
    requires SortedByKey(s)
    ensures SortedByKey(r)
    ensures multiset(r) == multiset(s) + multiset{x}
  {
    if s == [] then
      [x]
    else if KeyLe(x, s[0]) then
      BelowSorted(x, s);
      SortedCons(x, s);
      [x] + s
    else
      KeyLeTotal(x, s[0]);
      var t := InsertByKey(x, s[1..]);
      assert s == [s[0]] + s[1..];
      assert BelowAll(s[0], s[1..] + [x]) by {
        if s[1..] != [] {
          BelowSorted(s[0], s[1..]);
        }
      }
      BelowPermutation(s[0], s[1..] + [x], t);
      SortedCons(s[0], t);
      [s[0]] + t
  }

  /** Insertion sort: an ordered permutation of `s`. */
  function SortByKey(s: seq<string>): (r: seq<string>)
    ensures SortedByKey(r)
    ensures multiset(r) == multiset(s)
  {
    if s == [] then []
    else
      assert s == [s[0]] + s[1..];
      InsertByKey(s[0], SortByKey(s[1..]))
  }

  /** Leaving elements out keeps an ordered list ordered. */
  lemma {:induction false} SortedOmit(s: seq<string>, drop: set<string>)
    requires SortedByKey(s)
    ensures SortedByKey(Omit(s, drop))
  {
    if s != [] {
      assert SortedByKey(s[1..]);
      SortedOmit(s[1..], drop);
      if s[0] !in drop {
        if s[1..] != [] {
          BelowSorted(s[0], s[1..]);
        }
        OmitMembers(s[1..], drop);
        assert BelowAll(s[0], Omit(s[1..], drop));
        SortedCons(s[0], Omit(s[1..], drop));
      }
    }
  }
}
