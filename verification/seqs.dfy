/** Array operations the application relies on: `filter`, `slice(0, n)` and a
    stable descending `sort` driven by a numeric key (the comparator
    `(a, b) => key(b) - key(a)` under ECMAScript 2019's stable sort). */
module Seqs {

  // ---------------------------------------------------------------------------
  // filter
  // ---------------------------------------------------------------------------

  /** `s.filter(p)`: the elements satisfying `p`, in their original order. */
  function Filter<T>(s: seq<T>, p: T -> bool): (r: seq<T>)
    ensures |r| <= |s|
    ensures forall i :: 0 <= i < |r| ==> r[i] in s
    ensures forall i :: 0 <= i < |s| && p(s[i]) ==> s[i] in r
    ensures forall i :: 0 <= i < |r| ==> p(r[i])
  {
    if s == [] then []
    else (if p(s[0]) then [s[0]] else []) + Filter(s[1..], p)
  }

  /** Filtering distributes over concatenation, which is what "order-preserving
      subsequence" means for `filter`. */
  lemma {:induction false} FilterAppend<T>(a: seq<T>, b: seq<T>, p: T -> bool)
    ensures Filter(a + b, p) == Filter(a, p) + Filter(b, p)
  {
    if a == [] {
      assert a + b == b;
    } else {
      assert (a + b)[1..] == a[1..] + b;
      FilterAppend(a[1..], b, p);
    }
  }

  /** `filter` keeps every occurrence of an element it accepts and none of
      one it rejects. */
  lemma {:induction false} FilterMultiset<T>(s: seq<T>, p: T -> bool, x: T)
    ensures multiset(Filter(s, p))[x] == if p(x) then multiset(s)[x] else 0
  {
    if s != [] {
      FilterMultiset(s[1..], p, x);
      assert s == [s[0]] + s[1..];
      assert multiset(s) == multiset([s[0]]) + multiset(s[1..]);
    }
  }

  /** A filter that keeps every element is the identity. */
  lemma {:induction false} FilterKeepsAll<T>(s: seq<T>, p: T -> bool)
    requires forall i :: 0 <= i < |s| ==> p(s[i])
    ensures Filter(s, p) == s
  {
    if s != [] {
      FilterKeepsAll(s[1..], p);
    }
  }

  /** When `q` is the negation of `p` on `s`, the two filters split `s`. */
  lemma {:induction false} FilterPartition<T>(s: seq<T>, p: T -> bool, q: T -> bool)
    requires forall i :: 0 <= i < |s| ==> q(s[i]) == !p(s[i])
    ensures |Filter(s, p)| + |Filter(s, q)| == |s|
  {
    if s != [] {
      FilterPartition(s[1..], p, q);
    }
  }

  /** The number of elements satisfying `p`. */
  function Count<T>(s: seq<T>, p: T -> bool): (n: nat)
    ensures n <= |s|
    ensures n == |Filter(s, p)|
  {
    if s == [] then 0 else (if p(s[0]) then 1 else 0) + Count(s[1..], p)
  }

  /** All elements satisfy `p` exactly when all are counted. */
  lemma {:induction false} CountAll<T>(s: seq<T>, p: T -> bool)
    ensures Count(s, p) == |s| <==> forall i :: 0 <= i < |s| ==> p(s[i])
  {
    if s != [] {
      CountAll(s[1..], p);
      assert forall i :: 1 <= i < |s| ==> s[i] == s[1..][i - 1];
    }
  }

  /** No element satisfies `p` exactly when none is counted. */
  lemma {:induction false} CountNone<T>(s: seq<T>, p: T -> bool)
    ensures Count(s, p) == 0 <==> forall i :: 0 <= i < |s| ==> !p(s[i])
  {
    if s != [] {
      CountNone(s[1..], p);
      assert forall i :: 1 <= i < |s| ==> s[i] == s[1..][i - 1];
    }
  }

  /** Two properties no element has at once are counted at most once each. */
  lemma {:induction false} CountDisjoint<T>(s: seq<T>, p: T -> bool, q: T -> bool)
    requires forall i :: 0 <= i < |s| ==> !(p(s[i]) && q(s[i]))
    ensures Count(s, p) + Count(s, q) <= |s|
  {
    if s != [] {
      CountDisjoint(s[1..], p, q);
    }
  }

  /** Counting a non-empty slice: its first element, then the rest of it. */
  lemma CountSliceStep<T>(s: seq<T>, from: nat, k: nat, p: T -> bool)
    requires from < k <= |s|
    ensures Count(s[from..k], p) == (if p(s[from]) then 1 else 0) + Count(s[from + 1..k], p)
  {
    assert s[from..k][1..] == s[from + 1..k];
  }

  /** The element at position `j` of the second part of a concatenation. */
  lemma ConcatIndex<T>(a: seq<T>, b: seq<T>, j: nat)
    requires j < |b|
    ensures |a| + j < |a + b| && (a + b)[|a| + j] == b[j]
  {
  }

  /** The images of the elements under `f`, concatenated in order: a loop
      pushing every element's items onto one array. */
  function Flatten<T, U>(xs: seq<T>, f: T -> seq<U>): seq<U>
  {
    if xs == [] then [] else f(xs[0]) + Flatten(xs[1..], f)
  }

  /** Flattening distributes over concatenation. */
  lemma {:induction false} FlattenAppend<T, U>(a: seq<T>, b: seq<T>, f: T -> seq<U>)
    ensures Flatten(a + b, f) == Flatten(a, f) + Flatten(b, f)
  {
    if a == [] {
      assert a + b == b;
    } else {
      assert (a + b)[1..] == a[1..] + b;
      FlattenAppend(a[1..], b, f);
    }
  }

  // ---------------------------------------------------------------------------
  // slice(0, n)
  // ---------------------------------------------------------------------------

  /** `s.slice(0, n)`: a negative `n` counts from the end. */
  function SliceTo<T>(s: seq<T>, n: int): (r: seq<T>)
    ensures 0 <= n ==> |r| == (if n < |s| then n else |s|)
    ensures n < 0 ==> |r| == (if |s| + n < 0 then 0 else |s| + n)
    ensures r == s[..|r|]
  {
    if n >= 0 then (if n < |s| then s[..n] else s)
    else if |s| + n < 0 then []
    else s[..|s| + n]
  }

  // ---------------------------------------------------------------------------
  // stable descending sort
  // ---------------------------------------------------------------------------

  ghost predicate SortedDesc<T>(s: seq<T>, key: T -> real)
  {
    forall i, j :: 0 <= i < j < |s| ==> key(s[i]) >= key(s[j])
  }

  /** The elements of `s` whose key is `k`, in order. */
  function WithKey<T>(s: seq<T>, key: T -> real, k: real): seq<T>
  {
    if s == [] then []
    else (if key(s[0]) == k then [s[0]] else []) + WithKey(s[1..], key, k)
  }

  /** Inserts `x` in front of the first element whose key is not larger. */
  function InsertDesc<T>(x: T, s: seq<T>, key: T -> real): (r: seq<T>)
    ensures |r| == |s| + 1
  {
    if s == [] then [x]
    else if key(s[0]) > key(x) then [s[0]] + InsertDesc(x, s[1..], key)
    else [x] + s
  }

  /** Inserting adds exactly the inserted element. */
  lemma {:induction false} InsertDescElements<T>(x: T, s: seq<T>, key: T -> real)
    ensures multiset(InsertDesc(x, s, key)) == multiset(s) + multiset{x}
  {
    if s != [] && key(s[0]) > key(x) {
      InsertDescElements(x, s[1..], key);
      assert s == [s[0]] + s[1..];
    }
  }

  /** `s.sort((a, b) => key(b) - key(a))`: a stable insertion sort. */
  function SortDesc<T>(s: seq<T>, key: T -> real): (r: seq<T>)
    ensures multiset(r) == multiset(s)
    ensures |r| == |s|
  {
    if s == [] then []
    else
      assert s == [s[0]] + s[1..];
      InsertDescElements(s[0], SortDesc(s[1..], key), key);
      InsertDesc(s[0], SortDesc(s[1..], key), key)
  }

  /** Inserting below a bound keeps every key below it. */
  lemma {:induction false} InsertDescBounded<T>(x: T, s: seq<T>, key: T -> real, b: real)
    requires key(x) <= b
    requires forall i :: 0 <= i < |s| ==> key(s[i]) <= b
    ensures forall j :: 0 <= j < |InsertDesc(x, s, key)| ==> key(InsertDesc(x, s, key)[j]) <= b
  {
    if s != [] && key(s[0]) > key(x) {
      InsertDescBounded(x, s[1..], key, b);
      assert InsertDesc(x, s, key) == [s[0]] + InsertDesc(x, s[1..], key);
    }
  }

  lemma {:induction false} InsertDescSorted<T>(x: T, s: seq<T>, key: T -> real)
    requires SortedDesc(s, key)
    ensures SortedDesc(InsertDesc(x, s, key), key)
  {
    if s != [] && key(s[0]) > key(x) {
      var tail := InsertDesc(x, s[1..], key);
      InsertDescSorted(x, s[1..], key);
      InsertDescBounded(x, s[1..], key, key(s[0]));
      assert InsertDesc(x, s, key) == [s[0]] + tail;
    }
  }

  /** The sort result is ordered by non-increasing key. */
  lemma {:induction false} SortDescSorted<T>(s: seq<T>, key: T -> real)
    ensures SortedDesc(SortDesc(s, key), key)
  {
    if s != [] {
      SortDescSorted(s[1..], key);
      InsertDescSorted(s[0], SortDesc(s[1..], key), key);
    }
  }

  lemma WithKeyCons<T>(y: T, t: seq<T>, key: T -> real, k: real)
    ensures WithKey([y] + t, key, k) == (if key(y) == k then [y] else []) + WithKey(t, key, k)
  {
    assert ([y] + t)[1..] == t;
  }

  lemma {:induction false} WithKeyInsert<T>(x: T, s: seq<T>, key: T -> real, k: real)
    ensures WithKey(InsertDesc(x, s, key), key, k)
            == (if key(x) == k then [x] else []) + WithKey(s, key, k)
  {
    if s == [] {
      assert InsertDesc(x, s, key) == [x] + [];
      WithKeyCons(x, [], key, k);
    } else if key(s[0]) > key(x) {
      var y, rest := s[0], s[1..];
      var tail := InsertDesc(x, rest, key);
      assert InsertDesc(x, s, key) == [y] + tail;
      assert s == [y] + rest;
      WithKeyInsert(x, rest, key, k);
      WithKeyCons(y, tail, key, k);
      WithKeyCons(y, rest, key, k);
      if key(x) == k {
        assert key(y) != k;
      }
    } else {
      assert InsertDesc(x, s, key) == [x] + s;
      WithKeyCons(x, s, key, k);
    }
  }

  /** Stability: among elements with equal keys the sort keeps the input
      order, i.e. for every key value the elements carrying it come out in
      the order they went in. */
  lemma {:induction false} SortDescStable<T>(s: seq<T>, key: T -> real, k: real)
    ensures WithKey(SortDesc(s, key), key, k) == WithKey(s, key, k)
  {
    if s != [] {
      SortDescStable(s[1..], key, k);
      WithKeyInsert(s[0], SortDesc(s[1..], key), key, k);
    }
  }

  /** The first `n` entries of the stable descending sort: what every "top N"
      report in the application returns. Whatever is cut off ranks no higher
      than anything kept. */
  function TopByKey<T>(s: seq<T>, key: T -> real, n: int): (r: seq<T>)
    ensures 0 <= n ==> |r| == (if n < |s| then n else |s|)
    ensures forall i :: 0 <= i < |r| ==> r[i] in s
    ensures SortedDesc(r, key)
    ensures multiset(r) <= multiset(s)
    ensures forall i, j :: 0 <= i < |r| <= j < |s| ==> key(r[i]) >= key(SortDesc(s, key)[j])
  {
    var sorted := SortDesc(s, key);
    SortDescSorted(s, key);
    var r := SliceTo(sorted, n);
    PrefixOf(sorted, |r|);
    r
  }

  /** An element of `s` that did not make the top `n` ranks no higher than
      anything that did. */
  lemma TopRanked<T>(s: seq<T>, key: T -> real, n: int, x: T)
    requires x in s
    requires forall i :: 0 <= i < |TopByKey(s, key, n)| ==> TopByKey(s, key, n)[i] != x
    ensures forall i :: 0 <= i < |TopByKey(s, key, n)| ==> key(TopByKey(s, key, n)[i]) >= key(x)
  {
    var sorted := SortDesc(s, key);
    var r := TopByKey(s, key, n);
    assert x in multiset(sorted);
    var j :| 0 <= j < |sorted| && sorted[j] == x;
    assert r == sorted[..|r|];
  }

  /** The elements of a prefix with a given key are a prefix of the
      elements of the whole sequence with that key. */
  lemma {:induction false} WithKeyPrefix<T>(t: seq<T>, m: nat, key: T -> real, k: real)
    requires m <= |t|
    ensures WithKey(t[..m], key, k) <= WithKey(t, key, k)
  {
    if m > 0 {
      WithKeyPrefix(t[1..], m - 1, key, k);
      assert t[..m] == [t[0]] + t[1..][..m - 1];
      WithKeyCons(t[0], t[1..][..m - 1], key, k);
      assert t == [t[0]] + t[1..];
      WithKeyCons(t[0], t[1..], key, k);
    }
  }

  /** Ties keep the input order: for every key value, the kept elements with
      that key are the first elements of the input with that key. */
  lemma TopByKeyStable<T>(s: seq<T>, key: T -> real, n: int, k: real)
    ensures WithKey(TopByKey(s, key, n), key, k) <= WithKey(s, key, k)
  {
    var sorted := SortDesc(s, key);
    var r := TopByKey(s, key, n);
    assert r == sorted[..|r|];
    WithKeyPrefix(sorted, |r|, key, k);
    SortDescStable(s, key, k);
  }

  /** Everything `TopByKey` leaves out ranks no higher than anything kept. */
  lemma TopByKeyKeepsBest<T>(s: seq<T>, key: T -> real, n: int)
    ensures forall x :: x in s && x !in TopByKey(s, key, n) ==>
      forall i :: 0 <= i < |TopByKey(s, key, n)| ==> key(TopByKey(s, key, n)[i]) >= key(x)
  {
    forall x | x in s && x !in TopByKey(s, key, n)
      ensures forall i :: 0 <= i < |TopByKey(s, key, n)| ==> key(TopByKey(s, key, n)[i]) >= key(x)
    {
      TopRanked(s, key, n, x);
    }
  }

  /** A prefix holds part of the sequence's multiset. */
  lemma PrefixOf<T>(s: seq<T>, k: nat)
    requires k <= |s|
    ensures multiset(s[..k]) <= multiset(s)
    ensures forall i :: 0 <= i < k ==> s[..k][i] in multiset(s)
  {
    assert s == s[..k] + s[k..];
  }
}
