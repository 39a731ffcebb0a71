/** Sequences: regrouping, searching, and the stable sort of Array.prototype.sort. */
module Sequences {

  lemma Associative<T>(a: seq<T>, b: seq<T>, c: seq<T>)
    ensures a + (b + c) == (a + b) + c
  {
  }

  lemma TakeOneMore<T>(s: seq<T>, n: nat)
    requires n < |s|
    ensures s[..n + 1] == s[..n] + [s[n]]
  {
  }

  // The first position of a character, or the length of the string.
  function IndexOf(s: string, c: char): (i: nat)
    ensures i <= |s| && (forall j :: 0 <= j < i ==> s[j] != c) && (i < |s| ==> s[i] == c)
  {
    if s == "" || s[0] == c then 0 else 1 + IndexOf(s[1..], c)
  }

  // ----- sorting by an integer key -----

  // Goes behind everything whose key is no larger.
  function Insert<T>(sorted: seq<T>, x: T, key: T -> int): seq<T> {
    if sorted == [] || key(sorted[|sorted| - 1]) <= key(x) then sorted + [x]
    else Insert(sorted[..|sorted| - 1], x, key) + [sorted[|sorted| - 1]]
  }

  function SortBy<T>(s: seq<T>, key: T -> int): seq<T> {
    if s == [] then [] else Insert(SortBy(s[..|s| - 1], key), s[|s| - 1], key)
  }

  ghost predicate SortedBy<T>(s: seq<T>, key: T -> int) {
    forall i, j :: 0 <= i < j < |s| ==> key(s[i]) <= key(s[j])
  }

  // The elements with one key, in their order.
  function WithKey<T>(s: seq<T>, key: T -> int, k: int): seq<T> {
    if s == [] then []
    else if key(s[|s| - 1]) == k then WithKey(s[..|s| - 1], key, k) + [s[|s| - 1]]
    else WithKey(s[..|s| - 1], key, k)
  }

  lemma WithKeySnoc<T>(s: seq<T>, x: T, key: T -> int, k: int)
    ensures WithKey(s + [x], key, k) == if key(x) == k then WithKey(s, key, k) + [x] else WithKey(s, key, k)
  {
    assert (s + [x])[..|s|] == s;
  }

  lemma SortedSnoc<T>(s: seq<T>, last: T, init: seq<T>, x: T, key: T -> int)
    requires SortedBy(s, key) && multiset(s) == multiset(init) + multiset{x}
    requires SortedBy(init + [last], key) && key(x) < key(last)
    ensures SortedBy(s + [last], key)
  {
    forall i | 0 <= i < |s| ensures key(s[i]) <= key(last) {
      assert s[i] in multiset(s);
      assert s[i] != x ==> s[i] in init;
      if s[i] in init {
        var j :| 0 <= j < |init| && init[j] == s[i];
        assert (init + [last])[j] == s[i] && (init + [last])[|init|] == last;
      }
    }
  }

  lemma {:induction false} InsertSorts<T>(sorted: seq<T>, x: T, key: T -> int)
    requires SortedBy(sorted, key)
    ensures SortedBy(Insert(sorted, x, key), key) && multiset(Insert(sorted, x, key)) == multiset(sorted) + multiset{x}
    decreases |sorted|
  {
    if sorted != [] && key(sorted[|sorted| - 1]) > key(x) {
      var init, last := sorted[..|sorted| - 1], sorted[|sorted| - 1];
      InsertSorts(init, x, key);
      assert sorted == init + [last];
      SortedSnoc(Insert(init, x, key), last, init, x, key);
    }
  }

  lemma {:induction false} InsertKeepsTies<T>(sorted: seq<T>, x: T, key: T -> int, k: int)
    ensures WithKey(Insert(sorted, x, key), key, k) ==
      if key(x) == k then WithKey(sorted, key, k) + [x] else WithKey(sorted, key, k)
    decreases |sorted|
  {
    if sorted != [] && key(sorted[|sorted| - 1]) > key(x) {
      var init, last := sorted[..|sorted| - 1], sorted[|sorted| - 1];
      InsertKeepsTies(init, x, key, k);
      WithKeySnoc(Insert(init, x, key), last, key, k);
    } else {
      WithKeySnoc(sorted, x, key, k);
    }
  }

  lemma {:induction false} SortSorts<T>(s: seq<T>, key: T -> int)
    ensures SortedBy(SortBy(s, key), key) && multiset(SortBy(s, key)) == multiset(s)
  {
    if s != [] {
      var init, last := s[..|s| - 1], s[|s| - 1];
      SortSorts(init, key);
      InsertSorts(SortBy(init, key), last, key);
      assert s == init + [last];
    }
  }

  lemma {:induction false} SortKeepsTies<T>(s: seq<T>, key: T -> int, k: int)
    ensures WithKey(SortBy(s, key), key, k) == WithKey(s, key, k)
  {
    if s != [] {
      SortKeepsTies(s[..|s| - 1], key, k);
      InsertKeepsTies(SortBy(s[..|s| - 1], key), s[|s| - 1], key, k);
    }
  }

  /** The sort orders by key, keeps every element, and keeps the order of elements with equal keys. */
  lemma SortIsStable<T>(s: seq<T>, key: T -> int)
    ensures SortedBy(SortBy(s, key), key) && multiset(SortBy(s, key)) == multiset(s)
    ensures forall k: int :: WithKey(SortBy(s, key), key, k) == WithKey(s, key, k)
  {
    SortSorts(s, key);
    forall k: int ensures WithKey(SortBy(s, key), key, k) == WithKey(s, key, k) {
      SortKeepsTies(s, key, k);
    }
  }

  lemma SortSameElements<T>(s: seq<T>, key: T -> int)
    ensures |SortBy(s, key)| == |s|
    ensures forall x :: x in SortBy(s, key) <==> x in s
  {
    SortSorts(s, key);
    assert |multiset(SortBy(s, key))| == |SortBy(s, key)| && |multiset(s)| == |s|;
    assert forall x :: x in SortBy(s, key) <==> x in multiset(SortBy(s, key));
  }

  /** Sorting what is in order already changes nothing. */
  lemma {:induction false} SortSorted<T>(s: seq<T>, key: T -> int)
    requires SortedBy(s, key)
    ensures SortBy(s, key) == s
  {
    if s != [] {
      var init := s[..|s| - 1];
      SortSorted(init, key);
      assert s == init + [s[|s| - 1]];
    }
  }
}
