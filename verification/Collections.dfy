/** Shared containers: optional values and Python's insertion-ordered dict. */
module Collections {

  datatype Option<+T> = None | Some(value: T)

  /** A dict as its entries in insertion order. */
  type Dict<K, V> = seq<(K, V)>

  /** The position of k's entry, or the length when there is none. */
  function IndexOf<K(==), V>(d: Dict<K, V>, k: K): (r: nat)
    ensures r <= |d|
    ensures r < |d| ==> d[r].0 == k
    ensures forall j :: 0 <= j < r ==> d[j].0 != k
  {
    if d == [] then 0
    else if d[0].0 == k then 0
    else 1 + IndexOf(d[1..], k)
  }

  predicate Has<K(==), V>(d: Dict<K, V>, k: K) {
    IndexOf(d, k) < |d|
  }

  function Get<K(==), V>(d: Dict<K, V>, k: K): V
    requires Has(d, k)
  {
    d[IndexOf(d, k)].1
  }

  function GetOr<K(==), V>(d: Dict<K, V>, k: K, default: V): V {
    if Has(d, k) then Get(d, k) else default
  }

  /** `d[k] = v`: an existing key keeps its position, a new one goes to the end. */
  function Put<K(==), V>(d: Dict<K, V>, k: K, v: V): Dict<K, V> {
    if Has(d, k) then d[IndexOf(d, k) := (k, v)] else d + [(k, v)]
  }

  /** Writing a key makes it readable and touches no other key. */
  lemma PutGet<K, V>(d: Dict<K, V>, k: K, v: V)
    ensures Has(Put(d, k, v), k) && Get(Put(d, k, v), k) == v
    ensures forall k' | k' != k ::
              Has(Put(d, k, v), k') == Has(d, k') && (Has(d, k') ==> Get(Put(d, k, v), k') == Get(d, k'))
    ensures Distinct(d) ==> Distinct(Put(d, k, v))
  {
    var r := Put(d, k, v);
    var at := IndexOf(d, k);
    assert r[at] == (k, v);
    forall k' | k' != k ensures IndexOf(r, k') == if Has(d, k') then IndexOf(d, k') else |r| {
      var i := IndexOf(r, k');
      if Has(d, k') { assert r[IndexOf(d, k')] == d[IndexOf(d, k')]; }
      if i < |r| { assert r[i] == d[i]; }
    }
  }

  /** In a dict, an entry's key finds that entry's value. */
  lemma GetEntry<K, V>(d: Dict<K, V>, e: (K, V))
    requires Distinct(d) && e in d
    ensures Has(d, e.0) && Get(d, e.0) == e.1
  {
    var i :| 0 <= i < |d| && d[i] == e;
    assert d[IndexOf(d, e.0)].0 == d[i].0;
  }

  function Keys<K(==), V>(d: Dict<K, V>): set<K> {
    set i | 0 <= i < |d| :: d[i].0
  }

  /** No key is listed twice. */
  ghost predicate Distinct<K, V>(d: Dict<K, V>) {
    forall i, j :: 0 <= i < j < |d| ==> d[i].0 != d[j].0
  }

  lemma KeysStep<K, V>(rest: Dict<K, V>, last: (K, V))
    ensures Keys(rest + [last]) == Keys(rest) + {last.0}
  {
    var d := rest + [last];
    assert d[|rest|] == last;
    forall k | k in Keys(rest) ensures k in Keys(d) {
      var i :| 0 <= i < |rest| && rest[i].0 == k;
      assert d[i] == rest[i];
    }
  }

  /** In a dict without repeated keys, the entries and the keys are equally many. */
  lemma {:induction false} KeyCount<K, V>(d: Dict<K, V>)
    requires Distinct(d)
    ensures |Keys(d)| == |d|
  {
    if d != [] {
      var rest, last := d[..|d| - 1], d[|d| - 1];
      KeyCount(rest);
      KeysStep(rest, last);
      assert d == rest + [last];
    }
  }

  /** A subset is no larger than the set that holds it. */
  lemma {:induction false} SubsetSize<T>(a: set<T>, b: set<T>)
    requires a <= b
    ensures |a| <= |b|
  {
    assert b == a + (b - a);
  }

  /** A subset of a given size. */
  lemma {:induction false} TakeSome<T>(s: set<T>, n: nat) returns (r: set<T>)
    requires n <= |s|
    ensures r <= s && |r| == n
  {
    r := {};
    if n > 0 {
      var x :| x in s;
      r := TakeSome(s - {x}, n - 1);
      r := r + {x};
    }
  }

  /** The list of a set's elements. */
  ghost function Listed<T(!new)>(s: set<T>): (r: seq<T>)
    ensures forall x :: x in r <==> x in s
  {
    if s == {} then [] else
    var x :| x in s;
    [x] + Listed(s - {x})
  }

  /** The elements that pass a test, in order. */
  function Filter<T>(keep: T -> bool, s: seq<T>): seq<T> {
    if s == [] then [] else
    var rest, last := Filter(keep, s[..|s| - 1]), s[|s| - 1];
    if keep(last) then rest + [last] else rest
  }

  lemma {:induction false} FilterMember<T>(keep: T -> bool, s: seq<T>, x: T)
    ensures x in Filter(keep, s) <==> x in s && keep(x)
  {
    if s != [] {
      FilterMember(keep, s[..|s| - 1], x);
      assert s == s[..|s| - 1] + [s[|s| - 1]];
    }
  }

  /** Whatever holds between every element and each later one still does. */
  lemma {:induction false} FilterPairs<T>(keep: T -> bool, s: seq<T>, r: (T, T) -> bool)
    requires forall i, j :: 0 <= i < j < |s| ==> r(s[i], s[j])
    ensures forall i, j :: 0 <= i < j < |Filter(keep, s)| ==> r(Filter(keep, s)[i], Filter(keep, s)[j])
  {
    if s != [] {
      var before, last := s[..|s| - 1], s[|s| - 1];
      FilterPairs(keep, before, r);
      var rest := Filter(keep, before);
      forall i | 0 <= i < |rest| ensures r(rest[i], last) {
        FilterMember(keep, before, rest[i]);
        assert rest[i] in before;
      }
    }
  }
}
