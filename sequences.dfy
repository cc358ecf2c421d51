/**
 * The array operations the card store performs on its key lists:
 * `removeAll(where: { $0 == k })` (Omit), `firstIndex(of:)` followed by
 * `remove(at:)` (RemoveFirst), and `Array(dictionary.keys)` (SeqOfSet).
 */
module Sequences {
  import opened Optional

  /** Every element occurs exactly once. */
  ghost predicate Distinct(s: seq<string>)
  {
    forall x | x in s :: multiset(s)[x] == 1
  }

  /** `a` is `b` with some elements left out, the rest in their original order. */
  predicate IsSubsequence(a: seq<string>, b: seq<string>)
  {
    if a == [] then true
    else if b == [] then false
    else (a[0] == b[0] && IsSubsequence(a[1..], b[1..])) || IsSubsequence(a, b[1..])
  }

  lemma {:induction false} SubsequenceReflexive(s: seq<string>)
    ensures IsSubsequence(s, s)
  {
    if s != [] {
      SubsequenceReflexive(s[1..]);
    }
  }

  /** `s` with every element of `drop` removed, in the manner of `removeAll(where:)`. */
  function Omit(s: seq<string>, drop: set<string>): (r: seq<string>)
    ensures |r| <= |s|
  {
    if s == [] then []
    else (if s[0] in drop then [] else [s[0]]) + Omit(s[1..], drop)
  }

  /** An element survives exactly when it was there and is not dropped. */
  lemma {:induction false} OmitMembers(s: seq<string>, drop: set<string>)
    ensures forall x :: x in Omit(s, drop) <==> x in s && x !in drop
  {
    if s != [] {
      OmitMembers(s[1..], drop);
      assert s == [s[0]] + s[1..];
    }
  }

  lemma {:induction false} OmitAppend(a: seq<string>, b: seq<string>, drop: set<string>)
    ensures Omit(a + b, drop) == Omit(a, drop) + Omit(b, drop)
  {
    if a == [] {
      assert a + b == b;
    } else {
      assert (a + b)[0] == a[0];
      assert (a + b)[1..] == a[1..] + b;
      OmitAppend(a[1..], b, drop);
    }
  }

  /** Omit removes every copy of the dropped elements and keeps every copy of the others. */
  lemma {:induction false} OmitMultiset(s: seq<string>, drop: set<string>)
    ensures forall x :: multiset(Omit(s, drop))[x] == if x in drop then 0 else multiset(s)[x]
  {
    if s != [] {
      OmitMultiset(s[1..], drop);
      assert s == [s[0]] + s[1..];
      assert multiset(s) == multiset{s[0]} + multiset(s[1..]);
    }
  }

  /** Omit keeps the relative order of the elements it keeps. */
  lemma {:induction false} OmitSubsequence(s: seq<string>, drop: set<string>)
    ensures IsSubsequence(Omit(s, drop), s)
  {
    if s != [] {
      var r := Omit(s, drop);
      OmitSubsequence(s[1..], drop);
      if s[0] in drop {
        assert r == Omit(s[1..], drop);
        if r != [] {
          assert IsSubsequence(r, s[1..]);
        }
      } else {
        assert r[0] == s[0] && r[1..] == Omit(s[1..], drop);
      }
    }
  }

  lemma {:induction false} OmitNothing(s: seq<string>, drop: set<string>)
    requires forall x | x in s :: x !in drop
    ensures Omit(s, drop) == s
  {
    if s != [] {
      OmitNothing(s[1..], drop);
      assert s == [s[0]] + s[1..];
    }
  }

  lemma {:induction false} OmitOmit(s: seq<string>, a: set<string>, b: set<string>)
    ensures Omit(Omit(s, a), b) == Omit(s, a + b)
  {
    if s != [] {
      OmitOmit(s[1..], a, b);
      OmitAppend(if s[0] in a then [] else [s[0]], Omit(s[1..], a), b);
    }
  }

  lemma OmitDistinct(s: seq<string>, drop: set<string>)
    requires Distinct(s)
    ensures Distinct(Omit(s, drop))
  {
    OmitMultiset(s, drop);
  }

  /** `firstIndex(of:)`. */
  function FirstIndex(s: seq<string>, x: string): (r: Option<nat>)
    ensures r.None? <==> x !in s
    ensures r.Some? ==> r.value < |s| && s[r.value] == x && x !in s[..r.value]
  {
    if s == [] then None
    else if s[0] == x then Some(0)
    else match FirstIndex(s[1..], x)
      case None => None
      case Some(i) =>
        assert s[..i + 1] == [s[0]] + s[1..][..i];
        Some(i + 1)
  }

  /** `remove(at:)`. */
  function RemoveAt(s: seq<string>, i: nat): (r: seq<string>)
    requires i < |s|
    ensures |r| == |s| - 1
  {
    s[..i] + s[i + 1..]
  }

  /** `remove(at:)` takes out exactly one copy of the element at that index. */
  lemma RemoveAtMultiset(s: seq<string>, i: nat)
    requires i < |s|
    ensures multiset(RemoveAt(s, i)) == multiset(s) - multiset{s[i]}
  {
    assert s == s[..i] + [s[i]] + s[i + 1..];
  }

  /** `firstIndex(of: x)` and, when found, `remove(at:)` that index (see RemoveFirstAt). */
  function RemoveFirst(s: seq<string>, x: string): seq<string>
  {
    if s == [] then []
    else if s[0] == x then s[1..]
    else [s[0]] + RemoveFirst(s[1..], x)
  }

  /** Removing the first copy is removing at the index `firstIndex(of:)` finds. */
  lemma {:induction false} RemoveFirstAt(s: seq<string>, x: string)
    ensures FirstIndex(s, x).None? ==> RemoveFirst(s, x) == s
    ensures FirstIndex(s, x).Some? ==> RemoveFirst(s, x) == RemoveAt(s, FirstIndex(s, x).value)
  {
    if s != [] && s[0] != x {
      RemoveFirstAt(s[1..], x);
      var found := FirstIndex(s[1..], x);
      if found.Some? {
        RemoveAtTail(s, found.value);
      } else {
        assert s == [s[0]] + s[1..];
      }
    }
  }

  lemma RemoveAtTail(s: seq<string>, i: nat)
    requires i + 1 < |s|
    ensures RemoveAt(s, i + 1) == [s[0]] + RemoveAt(s[1..], i)
  {
    assert s[..i + 1] == [s[0]] + s[1..][..i];
    assert s[i + 2..] == s[1..][i + 1..];
  }

  /** Exactly one copy of `x` goes, if there was one; every other element stays. */
  lemma RemoveFirstMultiset(s: seq<string>, x: string)
    ensures multiset(RemoveFirst(s, x)) == multiset(s) - multiset{x}
    ensures x !in s ==> RemoveFirst(s, x) == s
  {
    RemoveFirstAt(s, x);
    var found := FirstIndex(s, x);
    if found.Some? {
      RemoveAtMultiset(s, found.value);
    }
  }

  /** On a list without repeats, removing the element at an index removes every copy of it. */
  lemma RemoveAtDistinct(s: seq<string>, i: nat)
    requires Distinct(s) && i < |s|
    ensures RemoveAt(s, i) == Omit(s, {s[i]})
  {
    DistinctAt(s, i);
    OmitAt(s, i);
  }

  /** In a list without repeats, the element at an index occurs nowhere else. */
  lemma DistinctAt(s: seq<string>, i: nat)
    requires Distinct(s) && i < |s|
    ensures s[i] !in s[..i] && s[i] !in s[i + 1..]
  {
    assert s == s[..i] + [s[i]] + s[i + 1..];
    assert s[i] in s;
    assert multiset(s) == multiset(s[..i]) + multiset{s[i]} + multiset(s[i + 1..]);
  }

  /** In a list without repeats, different indices hold different elements. */
  lemma DistinctIndices(s: seq<string>, i: nat, j: nat)
    requires Distinct(s) && i < j < |s|
    ensures s[i] != s[j]
  {
    DistinctAt(s, j);
    assert s[i] in s[..j];
  }

  /** Omitting an element that occurs only at index i is removing index i. */
  lemma OmitAt(s: seq<string>, i: nat)
    requires i < |s| && s[i] !in s[..i] && s[i] !in s[i + 1..]
    ensures Omit(s, {s[i]}) == s[..i] + s[i + 1..]
  {
    var p, x, q := s[..i], s[i], s[i + 1..];
    OmitSplit(p, x, q);
    assert s == p + [x] + q;
  }

  lemma OmitSplit(p: seq<string>, x: string, q: seq<string>)
    requires x !in p && x !in q
    ensures Omit(p + [x] + q, {x}) == p + q
  {
    OmitNothing(p, {x});
    OmitNothing(q, {x});
    assert Omit([x], {x}) == [];
    OmitAppend(p, [x], {x});
    assert Omit(p + [x], {x}) == p;
    OmitAppend(p + [x], q, {x});
  }

  /** `Array(d.keys)`: the elements of a set, each once, in an unspecified order. */
  method SeqOfSet(s: set<string>) returns (r: seq<string>)
    ensures Distinct(r)
    ensures forall x :: x in r <==> x in s
  {
    r := [];
    var rest := s;
    while rest != {}
      invariant rest <= s
      invariant forall x :: x in r <==> x in s && x !in rest
      invariant Distinct(r)
      decreases rest
    {
      var x :| x in rest;
      r := r + [x];
      rest := rest - {x};
    }
  }

  lemma DistinctPermutation(a: seq<string>, b: seq<string>)
    requires Distinct(a) && multiset(a) == multiset(b)
    ensures Distinct(b)
  {
    forall x | x in b
      ensures multiset(b)[x] == 1
    {
      assert x in multiset(b);
    }
  }

  /** `randomElement()`: some element of `s`, or nil when `s` is empty. */
  method RandomElement(s: seq<string>) returns (r: Option<string>)
    ensures r.None? <==> s == []
    ensures r.Some? ==> r.value in s
  {
    if s == [] {
      r := None;
    } else {
      assert s[0] in s;
      var x :| x in s;
      r := Some(x);
    }
  }
}
