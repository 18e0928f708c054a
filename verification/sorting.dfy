/**
 * Python's `sorted(xs, key=f)`: a stable sort of elements by a string key
 * under Python's string order. Elements travel with the key computed for
 * them, as `sorted` computes each key once before comparing.
 */
module Sorting {
  import opened Text

  /** Keys never decrease from left to right. */
  predicate SortedByKey<T>(s: seq<(string, T)>) {
    forall i, j :: 0 <= i < j < |s| ==> StrLe(s[i].0, s[j].0)
  }

  /** The elements carrying key `k`, in their order in `s`. */
  function WithKey<T>(s: seq<(string, T)>, k: string): seq<(string, T)> {
    if s == [] then []
    else (if s[0].0 == k then [s[0]] else []) + WithKey(s[1..], k)
  }

  /** The elements without their keys. */
  function Values<T>(s: seq<(string, T)>): (r: seq<T>)
    ensures |r| == |s|
    ensures forall i :: 0 <= i < |s| ==> r[i] == s[i].1
  {
    if s == [] then [] else [s[0].1] + Values(s[1..])
  }

  /** Places `x` before the first element whose key is not below its own. */
  function Insert<T>(x: (string, T), s: seq<(string, T)>): seq<(string, T)> {
    if s == [] || StrLe(x.0, s[0].0) then [x] + s else [s[0]] + Insert(x, s[1..])
  }

  /** Insertion sort: each element goes in ahead of every later one with the same key. */
  function SortByKey<T>(s: seq<(string, T)>): seq<(string, T)> {
    if s == [] then [] else Insert(s[0], SortByKey(s[1..]))
  }

  /** `sorted(xs)` on strings: each string is its own key. */
  function SortStrings(xs: seq<string>): seq<string> {
    Values(SortByKey(seq(|xs|, i requires 0 <= i < |xs| => (xs[i], xs[i]))))
  }

  predicate StringsSorted(xs: seq<string>) {
    forall i, j :: 0 <= i < j < |xs| ==> StrLe(xs[i], xs[j])
  }

  // ---------------------------------------------------------------------
  // Insertion keeps order, contents and the relative order of equal keys
  // ---------------------------------------------------------------------

  /** Every element of `s` has a key at or above `k`. */
  predicate KeysFrom<T>(k: string, s: seq<(string, T)>) {
    forall i :: 0 <= i < |s| ==> StrLe(k, s[i].0)
  }

  lemma {:induction false} InsertKeysFrom<T>(k: string, x: (string, T), s: seq<(string, T)>)
    requires KeysFrom(k, s) && StrLe(k, x.0)
    ensures KeysFrom(k, Insert(x, s))
    decreases |s|
  {
    if s != [] && !StrLe(x.0, s[0].0) {
      InsertKeysFrom(k, x, s[1..]);
    }
  }

  lemma {:induction false} InsertSorted<T>(x: (string, T), s: seq<(string, T)>)
    requires SortedByKey(s)
    ensures SortedByKey(Insert(x, s))
    decreases |s|
  {
    if s == [] || StrLe(x.0, s[0].0) {
      var r := [x] + s;
      forall i, j | 0 <= i < j < |r| ensures StrLe(r[i].0, r[j].0) {
        if i == 0 && j > 1 { StrLeTrans(x.0, s[0].0, s[j - 1].0); }
      }
    } else {
      InsertSorted(x, s[1..]);
      var t := Insert(x, s[1..]);
      StrLeTotal(x.0, s[0].0);
      InsertKeysFrom(s[0].0, x, s[1..]);
      var r := [s[0]] + t;
      forall i, j | 0 <= i < j < |r| ensures StrLe(r[i].0, r[j].0) {
        if i > 0 { assert r[i] == t[i - 1] && r[j] == t[j - 1]; }
      }
    }
  }

  lemma {:induction false} InsertValues<T>(x: (string, T), s: seq<(string, T)>)
    ensures |Insert(x, s)| == |s| + 1
    ensures multiset(Values(Insert(x, s))) == multiset(Values(s)) + multiset{x.1}
    decreases |s|
  {
    if s == [] || StrLe(x.0, s[0].0) {
      assert Values([x] + s) == [x.1] + Values(s);
    } else {
      InsertValues(x, s[1..]);
      var t := Insert(x, s[1..]);
      assert Values([s[0]] + t) == [s[0].1] + Values(t);
      assert Values(s) == [s[0].1] + Values(s[1..]);
    }
  }

  lemma {:induction false} InsertElements<T>(x: (string, T), s: seq<(string, T)>)
    ensures forall y :: y in Insert(x, s) <==> y == x || y in s
    decreases |s|
  {
    if s != [] && !StrLe(x.0, s[0].0) {
      InsertElements(x, s[1..]);
      assert s == [s[0]] + s[1..];
    }
  }

  lemma {:induction false} InsertWithKey<T>(x: (string, T), s: seq<(string, T)>, k: string)
    ensures WithKey(Insert(x, s), k) == (if x.0 == k then [x] else []) + WithKey(s, k)
    decreases |s|
  {
    if s == [] || StrLe(x.0, s[0].0) {
      WithKeyCons(x, s, k);
    } else {
      InsertWithKey(x, s[1..], k);
      InsertWithKeyStep(x, s, k);
    }
  }

  /** `x` goes past the first element, whose key differs from x's since x's key is not below it. */
  lemma InsertWithKeyStep<T>(x: (string, T), s: seq<(string, T)>, k: string)
    requires s != [] && !StrLe(x.0, s[0].0)
    requires WithKey(Insert(x, s[1..]), k) == (if x.0 == k then [x] else []) + WithKey(s[1..], k)
    ensures WithKey(Insert(x, s), k) == (if x.0 == k then [x] else []) + WithKey(s, k)
  {
    StrLeRefl(x.0);
    var rest := Insert(x, s[1..]);
    assert Insert(x, s) == [s[0]] + rest;
    WithKeyCons(s[0], rest, k);
    WithKeyCons(s[0], s[1..], k);
    assert [s[0]] + s[1..] == s;
  }

  /** The first element is kept exactly when it carries the key. */
  lemma WithKeyCons<T>(y: (string, T), s: seq<(string, T)>, k: string)
    ensures WithKey([y] + s, k) == (if y.0 == k then [y] else []) + WithKey(s, k)
  {
    assert ([y] + s)[1..] == s;
  }

  // ---------------------------------------------------------------------
  // The sort
  // ---------------------------------------------------------------------

  /** The result is ordered by key and holds exactly the input's elements. */
  lemma {:induction false} SortByKeySorted<T>(s: seq<(string, T)>)
    ensures SortedByKey(SortByKey(s))
    ensures |SortByKey(s)| == |s|
    ensures multiset(Values(SortByKey(s))) == multiset(Values(s))
    decreases |s|
  {
    if s != [] {
      SortByKeySorted(s[1..]);
      InsertSorted(s[0], SortByKey(s[1..]));
      InsertValues(s[0], SortByKey(s[1..]));
      assert Values(s) == [s[0].1] + Values(s[1..]);
    }
  }

  /** Stability: for every key, the elements with that key keep their input order. */
  lemma {:induction false} SortByKeyStable<T>(s: seq<(string, T)>, k: string)
    ensures WithKey(SortByKey(s), k) == WithKey(s, k)
    decreases |s|
  {
    if s != [] {
      SortByKeyStable(s[1..], k);
      InsertWithKey(s[0], SortByKey(s[1..]), k);
    }
  }

  /** `sorted` on strings returns them in order, as a permutation of the input. */
  lemma SortStringsSorted(xs: seq<string>)
    ensures StringsSorted(SortStrings(xs))
    ensures multiset(SortStrings(xs)) == multiset(xs)
  {
    var pairs := seq(|xs|, i requires 0 <= i < |xs| => (xs[i], xs[i]));
    SortByKeySorted(pairs);
    assert Values(pairs) == xs;
    var r := SortByKey(pairs);
    SortByKeyKeys(pairs);
    forall i | 0 <= i < |r| ensures r[i].0 == r[i].1 {
      assert r[i] in pairs;
    }
    assert SortStrings(xs) == Values(r);
  }

  /** Sorting never separates an element from its key. */
  lemma {:induction false} SortByKeyKeys<T>(s: seq<(string, T)>)
    ensures forall y :: y in SortByKey(s) <==> y in s
    decreases |s|
  {
    if s != [] {
      SortByKeyKeys(s[1..]);
      InsertElements(s[0], SortByKey(s[1..]));
      assert s == [s[0]] + s[1..];
    }
  }
}
