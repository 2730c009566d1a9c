/** Ordering by a key, newest first, as the database's `orderBy: { ...: 'desc' }` does.
    The database leaves the order of equal keys open; in the model equal keys keep
    their input order, and the lemmas about listings only use sortedness and the
    permutation property. */
module Ordering {

  /** Every element's key is at least the next element's. */
  ghost predicate SortedDesc<T>(s: seq<T>, key: T -> int) {
    forall i :: 0 < i < |s| ==> key(s[i - 1]) >= key(s[i])
  }

  /** In a descending sequence, an earlier element's key is at least a later one's. */
  lemma {:induction false} SortedDescOrder<T>(s: seq<T>, key: T -> int, i: nat, j: nat)
    requires SortedDesc(s, key)
    requires i <= j < |s|
    ensures key(s[i]) >= key(s[j])
    decreases j - i
  {
    if i < j {
      SortedDescOrder(s, key, i + 1, j);
      assert key(s[i]) >= key(s[i + 1]);
    }
  }

  ghost predicate Distinct<T>(s: seq<T>) {
    forall i, j :: 0 <= i < j < |s| ==> s[i] != s[j]
  }

  /** Inserts `x` before the first element whose key is not greater than its own. */
  function InsertDesc<T>(x: T, s: seq<T>, key: T -> int): (r: seq<T>)
    ensures |r| == |s| + 1
    ensures r[0] == x || (|s| > 0 && r[0] == s[0])
    ensures multiset(r) == multiset(s) + multiset{x}
  {
    if s == [] || key(x) >= key(s[0]) then [x] + s
    else
      assert s == [s[0]] + s[1..];
      [s[0]] + InsertDesc(x, s[1..], key)
  }

  lemma {:induction false} InsertDescSorted<T>(x: T, s: seq<T>, key: T -> int)
    requires SortedDesc(s, key)
    ensures SortedDesc(InsertDesc(x, s, key), key)
  {
    if s != [] && key(x) < key(s[0]) {
      var rest := InsertDesc(x, s[1..], key);
      InsertDescSorted(x, s[1..], key);
      var r := [s[0]] + rest;
      assert r == InsertDesc(x, s, key);
      if |s| > 1 {
        assert key(s[0]) >= key(s[1]);
      }
      forall i | 0 < i < |r|
        ensures key(r[i - 1]) >= key(r[i])
      {
        assert r[i] == rest[i - 1];
        if i > 1 {
          assert r[i - 1] == rest[i - 2];
        }
      }
    }
  }

  /** Insertion sort: a permutation of `s` ordered by descending key. */
  function SortDesc<T>(s: seq<T>, key: T -> int): (r: seq<T>)
    ensures SortedDesc(r, key)
    ensures multiset(r) == multiset(s)
  {
    if s == [] then []
    else
      assert s == [s[0]] + s[1..];
      var sorted := SortDesc(s[1..], key);
      InsertDescSorted(s[0], sorted, key);
      InsertDesc(s[0], sorted, key)
  }

  /** At most the first `n` elements. */
  function Take<T>(s: seq<T>, n: nat): (r: seq<T>)
    ensures |r| == if |s| < n then |s| else n
    ensures r <= s
    ensures multiset(r) <= multiset(s)
  {
    if |s| <= n then s
    else
      assert s == s[..n] + s[n..];
      s[..n]
  }

  /** Sorting neither adds nor loses elements. */
  lemma SortDescMembers<T>(s: seq<T>, key: T -> int)
    ensures forall x :: x in SortDesc(s, key) <==> x in s
  {
    var r := SortDesc(s, key);
    forall x
      ensures x in r <==> x in s
    {
      assert x in r <==> x in multiset(r);
      assert x in s <==> x in multiset(s);
    }
  }

  /** The first `n` of a descending sequence are its newest: no occurrence left out
      (counting repeated elements one by one) is greater than anything kept. */
  lemma TakeKeepsGreatest<T>(s: seq<T>, key: T -> int, n: nat)
    requires SortedDesc(s, key)
    ensures SortedDesc(Take(s, n), key)
    ensures forall x :: multiset(Take(s, n))[x] < multiset(s)[x] ==>
              forall i :: 0 <= i < |Take(s, n)| ==> key(Take(s, n)[i]) >= key(x)
  {
    var r := Take(s, n);
    assert r == s[..|r|];
    forall x | multiset(r)[x] < multiset(s)[x]
      ensures forall i :: 0 <= i < |r| ==> key(r[i]) >= key(x)
    {
      var m := LeftOutOccurrence(s, |r|, x);
      forall i | 0 <= i < |r|
        ensures key(r[i]) >= key(x)
      {
        SortedDescOrder(s, key, i, m);
      }
    }
  }

  /** An element that occurs more often in `s` than in its first `k` elements occurs
      at some position from `k` on. */
  lemma LeftOutOccurrence<T>(s: seq<T>, k: nat, x: T) returns (m: nat)
    requires k <= |s| && multiset(s[..k])[x] < multiset(s)[x]
    ensures k <= m < |s| && s[m] == x
  {
    assert s == s[..k] + s[k..];
    assert multiset(s) == multiset(s[..k]) + multiset(s[k..]);
    assert x in multiset(s[k..]);
    var j :| 0 <= j < |s[k..]| && s[k..][j] == x;
    m := k + j;
  }

  /** The first `n` after sorting: the smaller of `n` and `|s|` distinct occurrences
      of the input's elements, all of them when there are no more than `n`. */
  lemma TopOfSortedCounts<T>(s: seq<T>, key: T -> int, n: nat)
    ensures var r := Take(SortDesc(s, key), n);
      && |r| == (if |s| < n then |s| else n)
      && multiset(r) <= multiset(s)
      && (|s| <= n ==> multiset(r) == multiset(s))
      && (forall x :: x in r ==> x in s)
  {
    var sorted := SortDesc(s, key);
    var r := Take(sorted, n);
    assert |sorted| == |s| by {
      assert |multiset(sorted)| == |multiset(s)|;
    }
    if |s| <= n {
      assert r == sorted;
    }
    forall x | x in r
      ensures x in s
    {
      assert x in multiset(r);
    }
  }

  /** The first `n` after sorting are in descending order, and no occurrence left out
      (counting repeated elements one by one) is greater than one kept. */
  lemma TopOfSortedOrder<T>(s: seq<T>, key: T -> int, n: nat)
    ensures var r := Take(SortDesc(s, key), n);
      && (forall i, j :: 0 <= i < j < |r| ==> key(r[i]) >= key(r[j]))
      && (forall x :: multiset(r)[x] < multiset(s)[x] ==> forall i :: 0 <= i < |r| ==> key(r[i]) >= key(x))
  {
    var sorted := SortDesc(s, key);
    var r := Take(sorted, n);
    TakeKeepsGreatest(sorted, key, n);
    forall x | multiset(r)[x] < multiset(s)[x]
      ensures forall i :: 0 <= i < |r| ==> key(r[i]) >= key(x)
    {
      assert multiset(r)[x] < multiset(sorted)[x];
    }
    forall i, j | 0 <= i < j < |r|
      ensures key(r[i]) >= key(r[j])
    {
      SortedDescOrder(r, key, i, j);
    }
  }

  lemma {:induction false} DistinctCountsAtMostOne<T>(s: seq<T>, v: T)
    requires Distinct(s)
    ensures multiset(s)[v] <= 1
  {
    if s != [] {
      var n := |s| - 1;
      assert s == s[..n] + [s[n]];
      DistinctCountsAtMostOne(s[..n], v);
      if s[n] == v {
        assert v !in s[..n];
      }
    }
  }

  lemma RepeatCountsTwice<T>(s: seq<T>, i: nat, j: nat)
    requires i < j < |s| && s[i] == s[j]
    ensures multiset(s)[s[i]] >= 2
  {
    assert s == s[..j] + [s[j]] + s[j + 1..];
    assert s[..j][i] == s[i];
  }

  /** A permutation of a duplicate-free sequence is duplicate-free. */
  lemma PermutationKeepsDistinct<T>(a: seq<T>, b: seq<T>)
    requires multiset(a) == multiset(b)
    requires Distinct(b)
    ensures Distinct(a)
  {
    forall i, j | 0 <= i < j < |a|
      ensures a[i] != a[j]
    {
      if a[i] == a[j] {
        RepeatCountsTwice(a, i, j);
        DistinctCountsAtMostOne(b, a[i]);
      }
    }
  }
}
