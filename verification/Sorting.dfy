/**
 * Stable sorting by a two-level key, as a specification of the library sorts that the gateway calls:
 * the result is sorted, and elements with equal keys keep their order. These two facts determine it.
 */
module Sorting {

  datatype Key = Key(major: int, minor: int)

  predicate Leq(a: Key, b: Key) {
    a.major < b.major || (a.major == b.major && a.minor <= b.minor)
  }

  ghost predicate Sorted<T>(s: seq<T>, key: T -> Key) {
    forall i, j :: 0 <= i < j < |s| ==> Leq(key(s[i]), key(s[j]))
  }

  /** The elements of `s` that carry key `k`, in their order */
  function WithKey<T>(s: seq<T>, key: T -> Key, k: Key): seq<T> {
    if s == [] then []
    else (if key(s[0]) == k then [s[0]] else []) + WithKey(s[1..], key, k)
  }

  function Insert<T>(x: T, s: seq<T>, key: T -> Key): (r: seq<T>)
    ensures |r| == |s| + 1
  {
    if s == [] || Leq(key(x), key(s[0])) then [x] + s else [s[0]] + Insert(x, s[1..], key)
  }

  function SortBy<T>(s: seq<T>, key: T -> Key): (r: seq<T>)
    ensures |r| == |s|
  {
    if s == [] then [] else Insert(s[0], SortBy(s[1..], key), key)
  }

  lemma {:induction false} InsertElements<T>(x: T, s: seq<T>, key: T -> Key)
    ensures multiset(Insert(x, s, key)) == multiset(s) + multiset{x}
  {
    if s == [] || Leq(key(x), key(s[0])) {
      assert [x] + s == Insert(x, s, key);
    } else {
      InsertElements(x, s[1..], key);
      assert s == [s[0]] + s[1..];
    }
  }

  lemma {:induction false} InsertSorted<T>(x: T, s: seq<T>, key: T -> Key)
    requires Sorted(s, key)
    ensures Sorted(Insert(x, s, key), key)
  {
    if !(s == [] || Leq(key(x), key(s[0]))) {
      InsertSorted(x, s[1..], key);
      InsertElements(x, s[1..], key);
      var r := Insert(x, s[1..], key);
      forall j | 0 <= j < |r| ensures Leq(key(s[0]), key(r[j])) {
        assert r[j] in multiset(r);
        assert r[j] == x || r[j] in s[1..];
      }
    }
  }

  lemma WithKeyCons<T>(x: T, s: seq<T>, key: T -> Key, k: Key)
    ensures WithKey([x] + s, key, k) == (if key(x) == k then [x] else []) + WithKey(s, key, k)
  {
    assert ([x] + s)[1..] == s;
  }

  lemma {:induction false} InsertStable<T>(x: T, s: seq<T>, key: T -> Key, k: Key)
    requires Sorted(s, key)
    ensures WithKey(Insert(x, s, key), key, k) == (if key(x) == k then [x] else []) + WithKey(s, key, k)
  {
    if s == [] || Leq(key(x), key(s[0])) {
      WithKeyCons(x, s, key, k);
    } else {
      var r := Insert(x, s[1..], key);
      InsertStable(x, s[1..], key, k);
      WithKeyCons(s[0], r, key, k);
      WithKeyCons(s[0], s[1..], key, k);
      assert s == [s[0]] + s[1..];
      var rest := WithKey(s[1..], key, k);
      if key(x) == k {
        assert key(s[0]) != k;
        assert [] + ([x] + rest) == [x] + ([] + rest);
      } else {
        assert [] + rest == rest;
      }
    }
  }

  /** Sorting orders the keys, keeps the elements, and keeps the order of equal keys. */
  lemma {:induction false} SortByIsStableSort<T>(s: seq<T>, key: T -> Key)
    ensures Sorted(SortBy(s, key), key)
    ensures multiset(SortBy(s, key)) == multiset(s)
    ensures forall k :: WithKey(SortBy(s, key), key, k) == WithKey(s, key, k)
  {
    if s != [] {
      var rest := SortBy(s[1..], key);
      SortByIsStableSort(s[1..], key);
      InsertSorted(s[0], rest, key);
      InsertElements(s[0], rest, key);
      assert s == [s[0]] + s[1..];
      forall k ensures WithKey(SortBy(s, key), key, k) == WithKey(s, key, k) {
        InsertStable(s[0], rest, key, k);
      }
    }
  }

  lemma {:induction false} WithKeyHas<T>(s: seq<T>, key: T -> Key, i: nat)
    requires i < |s|
    ensures WithKey(s, key, key(s[i])) != []
  {
    if i > 0 {
      WithKeyHas(s[1..], key, i - 1);
    }
  }

  lemma {:induction false} WithKeyFound<T>(s: seq<T>, key: T -> Key, k: Key) returns (i: nat)
    requires WithKey(s, key, k) != []
    ensures i < |s| && key(s[i]) == k
  {
    if key(s[0]) == k {
      i := 0;
    } else {
      i := WithKeyFound(s[1..], key, k);
      i := i + 1;
    }
  }

  /** Two sorted sequences with the same elements per key, in the same order, are the same sequence. */
  lemma {:induction false} StableSortIsUnique<T>(s: seq<T>, t: seq<T>, key: T -> Key)
    requires Sorted(s, key) && Sorted(t, key)
    requires forall k :: WithKey(s, key, k) == WithKey(t, key, k)
    ensures s == t
  {
    if t != [] {
      WithKeyHas(t, key, 0);
    }
    if s != [] {
      WithKeyHas(s, key, 0);
      var j := WithKeyFound(t, key, key(s[0]));
      var i := WithKeyFound(s, key, key(t[0]));
      assert key(s[0]) == key(t[0]);
      var k0 := key(s[0]);
      assert WithKey(s, key, k0)[0] == s[0] && WithKey(t, key, k0)[0] == t[0];
      forall k ensures WithKey(s[1..], key, k) == WithKey(t[1..], key, k) {
        assert WithKey(s, key, k) == WithKey(t, key, k);
        var n := if k == k0 then 1 else 0;
        assert WithKey(s, key, k)[n..] == WithKey(s[1..], key, k);
        assert WithKey(t, key, k)[n..] == WithKey(t[1..], key, k);
      }
      StableSortIsUnique(s[1..], t[1..], key);
      assert s == [s[0]] + s[1..] && t == [t[0]] + t[1..];
    }
  }
}
