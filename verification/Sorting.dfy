/** sort.Slice: callers learn that the result is an ordered permutation, and no more. */
module Sorting {
  ghost predicate SortedBy<T>(s: seq<T>, key: T -> int) {
    forall i, j :: 0 <= i < j < |s| ==> key(s[i]) <= key(s[j])
  }

  lemma InsertAt<T>(r: seq<T>, i: nat, x: T, key: T -> int)
    requires SortedBy(r, key) && i <= |r|
    requires i > 0 ==> key(r[i - 1]) <= key(x)
    requires forall j :: i <= j < |r| ==> key(x) < key(r[j])
    ensures SortedBy(r[..i] + ([x] + r[i..]), key)
  {}

  lemma InsertAtContents<T>(r: seq<T>, i: nat, x: T)
    requires i <= |r|
    ensures multiset(r[..i] + ([x] + r[i..])) == multiset(r) + multiset{x}
  {
    assert r == r[..i] + r[i..];
  }

  lemma OneMore<T>(s: seq<T>, n: nat)
    requires n < |s|
    ensures multiset(s[..n + 1]) == multiset(s[..n]) + multiset{s[n]}
  {
    assert s[..n + 1] == s[..n] + [s[n]];
  }

  /** Where x goes in the sorted list r: after everything not above it. */
  method FindPlace<T>(r: seq<T>, x: T, key: T -> int) returns (i: nat)
    ensures i <= |r| && (i > 0 ==> key(r[i - 1]) <= key(x))
    ensures forall j :: i <= j < |r| ==> key(x) < key(r[j])
  {
    i := |r|;
    while i > 0 && key(x) < key(r[i - 1])
      invariant 0 <= i <= |r|
      invariant forall j :: i <= j < |r| ==> key(x) < key(r[j])
    {
      i := i - 1;
    }
  }

  method SortSlice<T>(s: seq<T>, key: T -> int) returns (r: seq<T>)
    ensures multiset(r) == multiset(s)
    ensures SortedBy(r, key)
  {
    r := [];
    for n := 0 to |s|
      invariant multiset(r) == multiset(s[..n])
      invariant SortedBy(r, key)
    {
      var i := FindPlace(r, s[n], key);
      InsertAt(r, i, s[n], key);
      InsertAtContents(r, i, s[n]);
      OneMore(s, n);
      r := r[..i] + ([s[n]] + r[i..]);
    }
    assert s[..|s|] == s;
  }

  /** s lists the elements of S, each once. */
  ghost predicate Lists<T>(s: seq<T>, S: set<T>) {
    multiset(s) == multiset(S)
  }

  lemma ListsFacts<T>(s: seq<T>, S: set<T>)
    requires Lists(s, S)
    ensures |s| == |S|
    ensures forall x :: x in s <==> x in S
    ensures forall i, j :: 0 <= i < j < |s| ==> s[i] != s[j]
  {
    assert |multiset(s)| == |s| && |multiset(S)| == |S|;
    forall x ensures x in s <==> x in S {
      assert x in s <==> x in multiset(s);
    }
    forall i, j | 0 <= i < j < |s| ensures s[i] != s[j] {
      assert s == s[..j] + [s[j]] + s[j + 1..];
      assert multiset(s) == multiset(s[..j]) + multiset{s[j]} + multiset(s[j + 1..]);
      assert multiset(S)[s[j]] <= 1;
      assert s[i] in s[..j];
      assert multiset(s[..j])[s[i]] > 0;
    }
  }

  lemma ListsAdd<T>(s: seq<T>, S: set<T>, x: T)
    requires Lists(s, S) && x !in S
    ensures Lists(s + [x], S + {x})
  {}

  lemma ListsTail<T>(s: seq<T>, S: set<T>)
    requires Lists(s, S) && s != []
    ensures s[0] in S && Lists(s[1..], S - {s[0]})
  {
    var x := s[0];
    assert s == [x] + s[1..];
    assert x in multiset(s);
    assert multiset(s[1..]) == multiset(s) - multiset{x};
    assert multiset(S - {x}) == multiset(S) - multiset{x};
  }

  /** Go ranges over a map in no particular order. */
  method ListSet<T>(S: set<T>) returns (s: seq<T>)
    ensures Lists(s, S)
  {
    s := [];
    var rest := S;
    while rest != {}
      invariant rest <= S && Lists(s, S - rest)
      decreases rest
    {
      var x :| x in rest;
      assert S - (rest - {x}) == (S - rest) + {x};
      s, rest := s + [x], rest - {x};
    }
    assert S - {} == S;
  }
}
