/** Python's stable sort, as a function, and the order of strings. */
module Sorting {

  /** x is put behind every element that it does not have to precede. */
  function Insert<T>(before: (T, T) -> bool, s: seq<T>, x: T): seq<T> {
    if s == [] || !before(x, s[|s| - 1]) then s + [x]
    else Insert(before, s[..|s| - 1], x) + [s[|s| - 1]]
  }

  function SortBy<T>(before: (T, T) -> bool, s: seq<T>): seq<T> {
    if s == [] then [] else Insert(before, SortBy(before, s[..|s| - 1]), s[|s| - 1])
  }

  /** "Must precede" is a strict weak order: a comparison of keys. */
  ghost predicate IsOrder<T(!new)>(before: (T, T) -> bool) {
    && (forall x, y :: before(x, y) ==> !before(y, x))
    && (forall x, y, z :: !before(y, x) && !before(z, y) ==> !before(z, x))
  }

  ghost predicate InOrder<T>(before: (T, T) -> bool, s: seq<T>) {
    forall i, j :: 0 <= i < j < |s| ==> !before(s[j], s[i])
  }

  lemma {:induction false} InsertKeeps<T>(before: (T, T) -> bool, s: seq<T>, x: T)
    ensures multiset(Insert(before, s, x)) == multiset(s + [x])
    ensures |Insert(before, s, x)| == |s| + 1
  {
    if s == [] || !before(x, s[|s| - 1]) {
    } else {
      InsertKeeps(before, s[..|s| - 1], x);
      assert s == s[..|s| - 1] + [s[|s| - 1]];
    }
  }

  /** Sorting only rearranges. */
  lemma {:induction false} SortKeeps<T>(before: (T, T) -> bool, s: seq<T>)
    ensures multiset(SortBy(before, s)) == multiset(s) && |SortBy(before, s)| == |s|
  {
    if s != [] {
      SortKeeps(before, s[..|s| - 1]);
      InsertKeeps(before, SortBy(before, s[..|s| - 1]), s[|s| - 1]);
      assert s == s[..|s| - 1] + [s[|s| - 1]];
    }
  }

  lemma {:induction false} InsertOrders<T(!new)>(before: (T, T) -> bool, s: seq<T>, x: T)
    requires IsOrder(before) && InOrder(before, s)
    ensures InOrder(before, Insert(before, s, x))
  {
    if s == [] {
    } else if !before(x, s[|s| - 1]) {
      var last := s[|s| - 1];
      forall i | 0 <= i < |s| ensures !before(x, s[i]) {
        if i < |s| - 1 { assert !before(last, s[i]); }
      }
    } else {
      var rest, last := s[..|s| - 1], s[|s| - 1];
      InsertOrders(before, rest, x);
      var r := Insert(before, rest, x);
      InsertKeeps(before, rest, x);
      forall i | 0 <= i < |r| ensures !before(last, r[i]) {
        assert r[i] in multiset(rest + [x]);
        assert r[i] in rest + [x];
        if r[i] != x { assert r[i] in rest; }
      }
    }
  }

  /** The result is in order. */
  lemma {:induction false} SortOrders<T(!new)>(before: (T, T) -> bool, s: seq<T>)
    requires IsOrder(before)
    ensures InOrder(before, SortBy(before, s))
  {
    if s != [] {
      SortOrders(before, s[..|s| - 1]);
      InsertOrders(before, SortBy(before, s[..|s| - 1]), s[|s| - 1]);
    }
  }

  /** The same elements are in the sorted list. */
  lemma SortMember<T>(before: (T, T) -> bool, s: seq<T>, x: T)
    ensures x in SortBy(before, s) <==> x in s
  {
    SortKeeps(before, s);
    assert x in multiset(SortBy(before, s)) <==> x in multiset(s);
  }

  ghost predicate AllDifferent<T>(s: seq<T>) {
    forall i, j :: 0 <= i < j < |s| ==> s[i] != s[j]
  }

  lemma {:induction false} InsertDifferent<T>(before: (T, T) -> bool, s: seq<T>, x: T)
    requires AllDifferent(s) && x !in s
    ensures AllDifferent(Insert(before, s, x)) && forall y :: y in Insert(before, s, x) ==> y in s || y == x
  {
    if s == [] || !before(x, s[|s| - 1]) {
    } else {
      var rest, last := s[..|s| - 1], s[|s| - 1];
      InsertDifferent(before, rest, x);
      assert last !in Insert(before, rest, x);
    }
  }

  lemma {:induction false} SortDifferent<T>(before: (T, T) -> bool, s: seq<T>)
    requires AllDifferent(s)
    ensures AllDifferent(SortBy(before, s))
  {
    if s != [] {
      SortDifferent(before, s[..|s| - 1]);
      SortMember(before, s[..|s| - 1], s[|s| - 1]);
      InsertDifferent(before, SortBy(before, s[..|s| - 1]), s[|s| - 1]);
    }
  }

  // Strings

  /** Strings in Python's order: by code point, a proper prefix first. */
  predicate StringLess(a: string, b: string) {
    b != [] && (a == [] || a[0] < b[0] || (a[0] == b[0] && StringLess(a[1..], b[1..])))
  }

  /** The first string ends at the first difference, or has the smaller character there. */
  predicate SmallerAt(a: string, b: string, k: nat) {
    k <= |a| && k < |b| && a[..k] == b[..k] && (k == |a| || a[k] < b[k])
  }

  lemma SameStart(a: string, b: string, k: nat)
    ensures SmallerAt(a, b, k) && k > 0 ==> a != [] && a[0] == b[0] && SmallerAt(a[1..], b[1..], k - 1)
  {
    if SmallerAt(a, b, k) && k > 0 {
      assert a[..k][0] == a[0] && b[..k][0] == b[0];
      assert a[1..][..k - 1] == a[..k][1..] && b[1..][..k - 1] == b[..k][1..];
    }
  }

  lemma LongerStart(a: string, b: string, k: nat)
    requires a != [] && b != [] && a[0] == b[0] && SmallerAt(a[1..], b[1..], k)
    ensures SmallerAt(a, b, k + 1)
  {
    assert a[..k + 1] == [a[0]] + a[1..][..k] && b[..k + 1] == [b[0]] + b[1..][..k];
  }

  /** The order is the lexicographic one. */
  lemma {:induction false} StringLessExactly(a: string, b: string)
    ensures StringLess(a, b) <==> exists k: nat :: SmallerAt(a, b, k)
  {
    forall k: nat ensures SmallerAt(a, b, k) && k > 0 ==> a != [] && a[0] == b[0] && SmallerAt(a[1..], b[1..], k - 1) {
      SameStart(a, b, k);
    }
    if a != [] && b != [] && a[0] == b[0] {
      StringLessExactly(a[1..], b[1..]);
      if k: nat :| SmallerAt(a[1..], b[1..], k) {
        LongerStart(a, b, k);
      }
    } else if StringLess(a, b) {
      assert SmallerAt(a, b, 0);
    }
  }

  lemma {:induction false} StringLessAsymmetric(a: string, b: string)
    requires StringLess(a, b)
    ensures !StringLess(b, a) && a != b
  {
    if a != [] && a[0] == b[0] {
      StringLessAsymmetric(a[1..], b[1..]);
    }
  }

  lemma {:induction false} StringLessTotal(a: string, b: string)
    requires a != b
    ensures StringLess(a, b) || StringLess(b, a)
  {
    if a != [] && b != [] && a[0] == b[0] {
      assert a == [a[0]] + a[1..] && b == [b[0]] + b[1..];
      StringLessTotal(a[1..], b[1..]);
    }
  }

  lemma {:induction false} StringLessTransitive(a: string, b: string, c: string)
    requires StringLess(a, b) && StringLess(b, c)
    ensures StringLess(a, c)
  {
    if a != [] && a[0] == b[0] == c[0] {
      StringLessTransitive(a[1..], b[1..], c[1..]);
    }
  }
}
