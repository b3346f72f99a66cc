/**
 * Stable descending sort by a numeric key and top-k selection. `Array.prototype.sort` is stable
 * (ECMA-262, 2019 edition onward), so `[...s].sort((a, b) => key(b) - key(a))`
 * orders by key, largest first, and keeps equal keys in their input order.
 */
module Ranking {
  import opened Seqs

  ghost predicate SortedDesc<T>(s: seq<T>, key: T -> real)
  {
    forall i, j :: 0 <= i < j < |s| ==> key(s[i]) >= key(s[j])
  }

  /** Puts `x` in front of the first element whose key does not exceed its own. */
  function Insert<T(==)>(x: T, t: seq<T>, key: T -> real): (r: seq<T>)
    ensures |r| == |t| + 1
    ensures multiset(r) == multiset(t) + multiset{x}
  {
    if t == [] || key(t[0]) <= key(x) then [x] + t
    else
      assert t == [t[0]] + t[1..];
      [t[0]] + Insert(x, t[1..], key)
  }

  lemma {:induction false} InsertSorted<T>(x: T, t: seq<T>, key: T -> real)
    requires SortedDesc(t, key)
    ensures SortedDesc(Insert(x, t, key), key)
    decreases |t|
  {
    if t != [] && key(t[0]) > key(x) {
      var rest := Insert(x, t[1..], key);
      InsertSorted(x, t[1..], key);
      forall j | 0 <= j < |rest|
        ensures key(rest[j]) <= key(t[0])
      {
        assert rest[j] in multiset(rest);
        if rest[j] != x {
          assert rest[j] in multiset(t[1..]);
        }
      }
    }
  }

  /** The elements of `s` ordered by `key`, largest first, by insertion from the back. */
  function SortDesc<T(==)>(s: seq<T>, key: T -> real): (r: seq<T>)
    ensures |r| == |s|
    ensures multiset(r) == multiset(s)
    ensures SortedDesc(r, key)
  {
    if s == [] then []
    else
      assert s == [s[0]] + s[1..];
      var sorted := SortDesc(s[1..], key);
      InsertSorted(s[0], sorted, key);
      Insert(s[0], sorted, key)
  }

  /** The elements of `s` whose key is exactly `k`, in order. */
  function WithKey<T>(s: seq<T>, key: T -> real, k: real): seq<T>
  {
    if s == [] then []
    else (if key(s[0]) == k then [s[0]] else []) + WithKey(s[1..], key, k)
  }

  lemma {:induction false} InsertStable<T>(x: T, t: seq<T>, key: T -> real, k: real)
    ensures WithKey(Insert(x, t, key), key, k) == (if key(x) == k then [x] else []) + WithKey(t, key, k)
    decreases |t|
  {
    var r := Insert(x, t, key);
    if t == [] || key(t[0]) <= key(x) {
      assert r[1..] == t;
    } else {
      var rest := Insert(x, t[1..], key);
      assert r[0] == t[0] && r[1..] == rest;
      InsertStable(x, t[1..], key, k);
      var head := if key(t[0]) == k then [t[0]] else [];
      assert WithKey(r, key, k) == head + WithKey(rest, key, k);
      assert WithKey(t, key, k) == head + WithKey(t[1..], key, k);
      // x and t[0] cannot both carry key k, since key(t[0]) > key(x)
      assert head == [] || key(x) != k;
    }
  }

  /** Stability: among equal keys the sorted order is the input order. */
  lemma {:induction false} SortDescStable<T>(s: seq<T>, key: T -> real, k: real)
    ensures WithKey(SortDesc(s, key), key, k) == WithKey(s, key, k)
    decreases |s|
  {
    if s != [] {
      SortDescStable(s[1..], key, k);
      InsertStable(s[0], SortDesc(s[1..], key), key, k);
    }
  }

  lemma {:induction false} WithKeyPrefix<T>(s: seq<T>, n: nat, key: T -> real, k: real)
    requires n <= |s|
    ensures WithKey(s[..n], key, k) <= WithKey(s, key, k)
    decreases n
  {
    if n > 0 {
      assert s[..n][1..] == s[1..][..n - 1];
      WithKeyPrefix(s[1..], n - 1, key, k);
    }
  }

  /** `[...s].sort((a, b) => key(b) - key(a)).slice(0, n)`. */
  function TopK<T(==)>(s: seq<T>, key: T -> real, n: nat): (r: seq<T>)
    ensures |r| == Min(n, |s|)
    ensures SortedDesc(r, key)
    ensures multiset(r) <= multiset(s)
    // an element not all of whose copies were chosen scores no higher than any chosen one
    ensures forall i, j :: 0 <= i < |s| && 0 <= j < |r| && multiset(r)[s[i]] < multiset(s)[s[i]] ==>
              key(s[i]) <= key(r[j])
  {
    var sorted := SortDesc(s, key);
    var r := Take(sorted, n);
    PrefixOfSortedBounds(sorted, |r|, key);
    r
  }

  /** In a sorted list, whatever is left after a prefix scores no higher than anything in the prefix. */
  lemma PrefixOfSortedBounds<T>(sorted: seq<T>, m: nat, key: T -> real)
    requires m <= |sorted| && SortedDesc(sorted, key)
    ensures multiset(sorted[..m]) <= multiset(sorted)
    ensures forall x, j :: 0 <= j < m && multiset(sorted[..m])[x] < multiset(sorted)[x] ==>
              key(x) <= key(sorted[j])
  {
    var r, rest := sorted[..m], sorted[m..];
    assert sorted == r + rest;
    assert multiset(sorted) == multiset(r) + multiset(rest);
    forall x, j | 0 <= j < m && multiset(r)[x] < multiset(sorted)[x]
      ensures key(x) <= key(sorted[j])
    {
      assert x in multiset(rest);
      var i :| 0 <= i < |rest| && rest[i] == x;
      assert sorted[m + i] == x;
    }
  }

  /** Ties in the top-k keep input order: each tie class of the result is a prefix of that class in the input. */
  lemma TopKStable<T>(s: seq<T>, key: T -> real, n: nat, k: real)
    ensures WithKey(TopK(s, key, n), key, k) <= WithKey(s, key, k)
  {
    var sorted := SortDesc(s, key);
    SortDescStable(s, key, k);
    WithKeyPrefix(sorted, Min(n, |s|), key, k);
  }
}
