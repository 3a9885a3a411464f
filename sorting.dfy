/** MongoDB's `sort({ a: -1, b: -1 })` followed by `limit(n)`, on an
    in-memory sequence. Every sort in the core is descending on one or two
    numeric keys (dates as timestamps, booleans as 0/1), so a key is a pair
    compared lexicographically. MongoDB leaves the order of equal keys
    unspecified; this model keeps them in collection order. */
module Sorting {
  import opened Basics

  datatype SortKey = SortKey(primary: int, secondary: int)

  /** a may stand before b in a descending order. */
  predicate AtLeast(a: SortKey, b: SortKey)
  {
    a.primary > b.primary || (a.primary == b.primary && a.secondary >= b.secondary)
  }

  predicate SortedDesc<T>(s: seq<T>, key: T -> SortKey)
  {
    forall i, j | 0 <= i < j < |s| :: AtLeast(key(s[i]), key(s[j]))
  }

  function Insert<T>(x: T, s: seq<T>, key: T -> SortKey): (r: seq<T>)
    requires SortedDesc(s, key)
    ensures multiset(r) == multiset(s) + multiset{x}
    ensures SortedDesc(r, key)
    ensures |r| == |s| + 1
  {
    if s == [] then [x]
    else if AtLeast(key(x), key(s[0])) then [x] + s
    else
      var rest := Insert(x, s[1..], key);
      assert s == [s[0]] + s[1..];
      HeadBoundsInsert(s[0], s[1..], x, rest, key);
      [s[0]] + rest
  }

  /** The head of a descending sequence stands before everything the
      insertion of a smaller element into its tail produces. */
  lemma HeadBoundsInsert<T>(h: T, tail: seq<T>, x: T, rest: seq<T>, key: T -> SortKey)
    requires SortedDesc([h] + tail, key) && !AtLeast(key(x), key(h))
    requires multiset(rest) == multiset(tail) + multiset{x}
    ensures forall k | 0 <= k < |rest| :: AtLeast(key(h), key(rest[k]))
  {
    var s := [h] + tail;
    forall k | 0 <= k < |rest| ensures AtLeast(key(h), key(rest[k])) {
      assert rest[k] in multiset(rest);
      if rest[k] != x {
        assert rest[k] in multiset(tail);
        var m :| 0 <= m < |tail| && tail[m] == rest[k];
        assert s[0] == h && s[m + 1] == rest[k];
        assert AtLeast(key(s[0]), key(s[m + 1]));
      }
    }
  }

  /** The elements of s in descending key order: a permutation of s that is
      sorted. */
  function SortDesc<T>(s: seq<T>, key: T -> SortKey): (r: seq<T>)
    ensures multiset(r) == multiset(s)
    ensures SortedDesc(r, key)
    ensures |r| == |s|
  {
    if s == [] then []
    else
      assert s == [s[0]] + s[1..];
      Insert(s[0], SortDesc(s[1..], key), key)
  }

  /** MongoDB's `cursor.limit(n)` for n >= 0: zero means no limit. */
  function Limit<T>(s: seq<T>, n: nat): (r: seq<T>)
    ensures |r| == if n == 0 then |s| else Min(n, |s|)
    ensures r == s[..|r|]
  {
    if n == 0 then s else Take(s, n)
  }

  /** `sort(key: -1).limit(n)`. */
  function TopByKey<T>(s: seq<T>, key: T -> SortKey, n: nat): seq<T>
  {
    Limit(SortDesc(s, key), n)
  }

  /** A contiguous part of a descending sequence is descending. */
  lemma SliceSorted<T>(s: seq<T>, key: T -> SortKey, a: nat, b: nat)
    requires SortedDesc(s, key) && a <= b <= |s|
    ensures SortedDesc(s[a..b], key)
  {
    forall i, j | 0 <= i < j < b - a ensures AtLeast(key(s[a..b][i]), key(s[a..b][j])) {
      assert s[a..b][i] == s[a + i] && s[a..b][j] == s[a + j];
    }
  }

  /** In a descending sequence, an element whose key is strictly greater
      than that of the element at index k - 1 stands before index k. */
  lemma GreaterComesFirst<T>(sorted: seq<T>, key: T -> SortKey, k: nat, x: T)
    requires SortedDesc(sorted, key)
    requires 0 < k <= |sorted| && x in sorted
    requires !AtLeast(key(sorted[k - 1]), key(x))
    ensures x in sorted[..k]
  {
    var j :| 0 <= j < |sorted| && sorted[j] == x;
    assert sorted[..k][j] == x;
  }

  /** What `sort(...).limit(n)` promises: as many results as the limit
      allows, in descending order, drawn from the input without repetition,
      and all of it when it fits. */
  lemma TopByKeyProperties<T>(s: seq<T>, key: T -> SortKey, n: nat)
    ensures var r := TopByKey(s, key, n);
      && |r| == (if n == 0 then |s| else Min(n, |s|))
      && SortedDesc(r, key)
      && multiset(r) <= multiset(s)
      && (n == 0 || |s| <= n ==> multiset(r) == multiset(s))
  {
    var sorted := SortDesc(s, key);
    var r := Limit(sorted, n);
    SliceSorted(sorted, key, 0, |r|);
    assert sorted == r + sorted[|r|..];
    assert multiset(sorted) == multiset(r) + multiset(sorted[|r|..]);
  }

  /** Nothing better is left out: every element whose key is strictly
      greater than that of the last returned element is among the
      results. */
  lemma TopByKeyComplete<T>(s: seq<T>, key: T -> SortKey, n: nat)
    ensures var r := TopByKey(s, key, n);
      forall x | x in s && |r| > 0 && !AtLeast(key(r[|r| - 1]), key(x)) :: x in r
  {
    var sorted := SortDesc(s, key);
    var r := Limit(sorted, n);
    forall x | x in s && |r| > 0 && !AtLeast(key(r[|r| - 1]), key(x)) ensures x in r {
      assert x in multiset(sorted);
      GreaterComesFirst(sorted, key, |r|, x);
    }
  }

  /** What `sort(...).limit(n)` leaves out was left out because the limit
      was reached, and its key is no greater than that of the last
      result. */
  lemma TopByKeyLeftOut<T>(s: seq<T>, key: T -> SortKey, n: nat, x: T)
    requires x in s && x !in TopByKey(s, key, n)
    ensures var r := TopByKey(s, key, n);
      n > 0 && |r| == n && AtLeast(key(r[n - 1]), key(x))
  {
    TopByKeyProperties(s, key, n);
    assert x in multiset(s);
    TopByKeyComplete(s, key, n);
  }
}
