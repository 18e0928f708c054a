/**
 * The Python list operations the assistant applies to its lists of phones,
 * tags and notes: first-match lookup, `list.remove(x)` (which removes the
 * first equal element), and order-preserving selection.
 */
module Lists {

  /** The position of the first element equal to `x`. */
  function IndexOf<T(==)>(s: seq<T>, x: T): (i: nat)
    requires x in s
    ensures i < |s| && s[i] == x
    ensures forall j :: 0 <= j < i ==> s[j] != x
  {
    if s[0] == x then 0 else 1 + IndexOf(s[1..], x)
  }

  /** `list.remove(x)` when `x` is present; the list itself otherwise. */
  function RemoveFirst<T(==)>(s: seq<T>, x: T): (r: seq<T>)
    ensures x !in s ==> r == s
    ensures x in s ==> r == s[..IndexOf(s, x)] + s[IndexOf(s, x) + 1..]
  {
    if s == [] then []
    else if s[0] == x then s[1..]
    else
      var r := [s[0]] + RemoveFirst(s[1..], x);
      assert x in s ==> s[..IndexOf(s, x)] == [s[0]] + s[1..][..IndexOf(s[1..], x)];
      r
  }

  /** `a` is `b` with some elements left out, the rest in their order. */
  predicate IsSubsequence<T(==)>(a: seq<T>, b: seq<T>) {
    if a == [] then true
    else if b == [] then false
    else if a[0] == b[0] then IsSubsequence(a[1..], b[1..])
    else IsSubsequence(a, b[1..])
  }

  /** Removing the first match takes out one copy of it and nothing else. */
  lemma {:induction false} RemoveFirstCount<T>(s: seq<T>, x: T)
    ensures multiset(RemoveFirst(s, x)) == multiset(s) - multiset{x}
    ensures |RemoveFirst(s, x)| == if x in s then |s| - 1 else |s|
  {
    if x in s {
      var i := IndexOf(s, x);
      assert s == s[..i] + [x] + s[i + 1..];
      assert multiset(s) == multiset(s[..i]) + multiset{x} + multiset(s[i + 1..]);
    }
  }

  /** What survives a removal keeps its order. */
  lemma {:induction false} RemoveFirstIsSubsequence<T>(s: seq<T>, x: T)
    ensures IsSubsequence(RemoveFirst(s, x), s)
    decreases |s|
  {
    if s != [] {
      if s[0] == x {
        DropHeadIsSubsequence(s);
      } else {
        RemoveFirstIsSubsequence(s[1..], x);
        assert ([s[0]] + RemoveFirst(s[1..], x))[1..] == RemoveFirst(s[1..], x);
      }
    }
  }

  lemma {:induction false} SubsequenceRefl<T>(s: seq<T>)
    ensures IsSubsequence(s, s)
    decreases |s|
  {
    if s != [] {
      SubsequenceRefl(s[1..]);
    }
  }

  lemma DropHeadIsSubsequence<T>(s: seq<T>)
    requires s != []
    ensures IsSubsequence(s[1..], s)
  {
    SubsequenceRefl(s[1..]);
    SkipOne(s[1..], s);
  }

  /** Leaving out the first element of a subsequence keeps it a subsequence. */
  lemma {:induction false} DropFirst<T>(a: seq<T>, c: seq<T>)
    requires a != [] && IsSubsequence(a, c)
    ensures IsSubsequence(a[1..], c)
    decreases |c|
  {
    if a[0] == c[0] {
      if |a| > 1 && a[1] == c[0] {
        DropFirst(a[1..], c[1..]);
        assert a[1..][1..] == a[2..];
      }
    } else {
      DropFirst(a, c[1..]);
      if |a| > 1 && a[1] == c[0] {
        DropFirst(a[1..], c[1..]);
        assert a[1..][1..] == a[2..];
      }
    }
  }

  /** A subsequence of the tail is a subsequence of the whole. */
  lemma SkipOne<T>(a: seq<T>, b: seq<T>)
    requires b != [] && IsSubsequence(a, b[1..])
    ensures IsSubsequence(a, b)
  {
    if a != [] && a[0] == b[0] {
      DropFirst(a, b[1..]);
    }
  }

  /** Appending to the longer sequence keeps a subsequence. */
  lemma {:induction false} SubsequenceAppendRight<T>(a: seq<T>, b: seq<T>, x: T)
    requires IsSubsequence(a, b)
    ensures IsSubsequence(a, b + [x])
    decreases |b|
  {
    if a != [] {
      assert (b + [x])[1..] == b[1..] + [x];
      if a[0] == b[0] {
        SubsequenceAppendRight(a[1..], b[1..], x);
      } else {
        SubsequenceAppendRight(a, b[1..], x);
      }
    }
  }

  /** Appending the same element to both sides keeps a subsequence. */
  lemma {:induction false} SubsequenceAppendBoth<T>(a: seq<T>, b: seq<T>, x: T)
    requires IsSubsequence(a, b)
    ensures IsSubsequence(a + [x], b + [x])
    decreases |b|
  {
    if b == [] {
      assert a == [];
      assert IsSubsequence([x][1..], [x][1..]);
    } else if a == [] {
      SubsequenceAppendBoth(a, b[1..], x);
      assert a + [x] == [x];
      assert (b + [x])[1..] == b[1..] + [x];
      SkipOne([x], b + [x]);
    } else {
      assert (b + [x])[1..] == b[1..] + [x];
      assert (a + [x])[1..] == a[1..] + [x];
      if a[0] == b[0] {
        SubsequenceAppendBoth(a[1..], b[1..], x);
      } else {
        SubsequenceAppendBoth(a, b[1..], x);
      }
    }
  }

  /** No element occurs twice. */
  predicate Distinct<T(==)>(s: seq<T>) {
    forall i, j :: 0 <= i < j < |s| ==> s[i] != s[j]
  }

  /** Removing a value from a list without repeats leaves exactly the other values, still without repeats. */
  lemma RemoveFirstDistinct<T>(s: seq<T>, x: T)
    requires Distinct(s)
    ensures Distinct(RemoveFirst(s, x))
    ensures forall y :: y in RemoveFirst(s, x) <==> y in s && y != x
  {
    var r := RemoveFirst(s, x);
    RemoveFirstCount(s, x);
    DistinctCount(s);
    DistinctCount(r);
    forall y ensures y in r <==> y in s && y != x {
      assert y in r <==> y in multiset(r);
      assert y in s <==> y in multiset(s);
    }
  }

  /** A list has no repeats exactly when no value is counted twice in its multiset. */
  lemma {:induction false} DistinctCount<T>(s: seq<T>)
    ensures Distinct(s) <==> forall x :: multiset(s)[x] <= 1
    decreases |s|
  {
    if s != [] {
      var t := s[1..];
      DistinctCount(t);
      assert s == [s[0]] + t;
      assert multiset(s) == multiset{s[0]} + multiset(t);
      if Distinct(s) {
        assert Distinct(t) by {
          forall i, j | 0 <= i < j < |t| ensures t[i] != t[j] {
            assert t[i] == s[i + 1] && t[j] == s[j + 1];
          }
        }
      } else {
        var i, j :| 0 <= i < j < |s| && s[i] == s[j];
        if i == 0 {
          assert s[0] in t by { assert t[j - 1] == s[j]; }
          assert multiset(s)[s[0]] >= 2;
        } else {
          assert t[i - 1] == t[j - 1];
          assert !Distinct(t);
          var x :| multiset(t)[x] > 1;
          assert multiset(s)[x] > 1;
        }
      }
    }
  }

  /** Reordering a list without repeats leaves it without repeats. */
  lemma DistinctPermutation<T>(a: seq<T>, b: seq<T>)
    requires multiset(a) == multiset(b) && Distinct(a)
    ensures Distinct(b)
  {
    DistinctCount(a);
    DistinctCount(b);
  }
}
