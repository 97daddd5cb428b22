/** Facts about finite lists that several components share. */
module Lists {

  ghost predicate NoDup<T>(s: seq<T>) {
    forall i, j :: 0 <= i < j < |s| ==> s[i] != s[j]
  }

  ghost function Elems<T>(s: seq<T>): set<T> {
    set x | x in s
  }

  /** Python's `s.index(x)`: the first position of `x`. */
  function IndexOf<T(==)>(s: seq<T>, x: T): (i: nat)
    requires x in s
    ensures i < |s| && s[i] == x
    ensures forall j :: 0 <= j < i ==> s[j] != x
  {
    if s[0] == x then 0 else 1 + IndexOf(s[1..], x)
  }

  /** `[y for y in s if y != x]` */
  function Without<T(==,!new)>(s: seq<T>, x: T): (r: seq<T>)
    ensures forall y :: y in r <==> y in s && y != x
    ensures |r| <= |s|
    ensures x in s ==> |r| < |s|
    ensures NoDup(s) ==> NoDup(r)
  {
    if s == [] then []
    else
      var rest := Without(s[1..], x);
      assert NoDup(s) ==> NoDup(s[1..]) && s[0] !in rest;
      if s[0] == x then rest else [s[0]] + rest
  }

  /** `[x for x in s if x in keep]` */
  function KeepIn<T(==,!new)>(s: seq<T>, keep: seq<T>): (r: seq<T>)
    ensures forall x :: x in r <==> x in s && x in keep
  {
    if s == [] then []
    else
      var rest := KeepIn(s[1..], keep);
      if s[0] in keep then [s[0]] + rest else rest
  }

  lemma {:induction false} NoDupCardinality<T>(s: seq<T>)
    requires NoDup(s)
    ensures |Elems(s)| == |s|
  {
    if s == [] {
    } else {
      NoDupCardinality(s[1..]);
      assert Elems(s) == {s[0]} + Elems(s[1..]);
    }
  }

  /** In a duplicate-free list the position of an element is its only position. */
  lemma {:induction false} IndexOfAt<T>(s: seq<T>, i: nat)
    requires NoDup(s) && i < |s|
    ensures IndexOf(s, s[i]) == i
  {
    var j := IndexOf(s, s[i]);
    assert s[j] == s[i];
  }

  /** A strictly smaller duplicate-free list cannot contain a larger one. */
  lemma {:induction false} SubsetBySize<T>(small: set<T>, large: set<T>)
    requires small <= large
    ensures |small| <= |large|
  {
    assert large == small + (large - small);
  }
}
