/** Python's `sorted(xs, key=...)` on a real-valued key: a stable insertion
    sort, with the facts the callers rely on (ordered, a permutation, sums
    kept) and the top-N selection `sorted(...)[:n]`. */
module Sorting {

  ghost predicate Ascending<T>(s: seq<T>, key: T -> real)
  {
    forall i, j :: 0 <= i < j < |s| ==> key(s[i]) <= key(s[j])
  }

  /** Insert `x` before the first element whose key is not smaller, so that
      elements with equal keys keep their original order. */
  function Insert<T>(x: T, s: seq<T>, key: T -> real): (r: seq<T>)
    requires Ascending(s, key)
    ensures |r| == |s| + 1
    ensures multiset(r) == multiset(s) + multiset{x}
    ensures Ascending(r, key)
  {
    if s == [] || key(x) <= key(s[0]) then
      [x] + s
    else
      var rest := Insert(x, s[1..], key);
      assert s == [s[0]] + s[1..];
      HeadBelow(s[0], rest, x, s[1..], key);
      [s[0]] + rest
  }

  /** A key at most every key of `x` and `tail` is at most every key of a
      rearrangement of `tail` with `x` added. */
  lemma HeadBelow<T>(first: T, rest: seq<T>, x: T, tail: seq<T>, key: T -> real)
    requires multiset(rest) == multiset(tail) + multiset{x}
    requires key(first) <= key(x) && forall y :: y in tail ==> key(first) <= key(y)
    ensures forall y :: y in rest ==> key(first) <= key(y)
  {
    forall y | y in rest
      ensures key(first) <= key(y)
    {
      assert y in multiset(rest);
      if y != x {
        assert y in multiset(tail);
      }
    }
  }

  function SortByKey<T>(s: seq<T>, key: T -> real): (r: seq<T>)
    ensures |r| == |s|
    ensures multiset(r) == multiset(s)
    ensures Ascending(r, key)
  {
    if s == [] then []
    else
      assert s == [s[0]] + s[1..];
      Insert(s[0], SortByKey(s[1..], key), key)
  }

  /** `sorted(s, key=key)[:n]`: the n elements with the smallest keys. */
  function Top<T>(s: seq<T>, key: T -> real, n: nat): (r: seq<T>)
    ensures |r| == if n < |s| then n else |s|
    ensures Ascending(r, key)
    ensures multiset(r) <= multiset(s)
    ensures forall x, y :: x in r && y in multiset(s) - multiset(r) ==> key(x) <= key(y)
  {
    var sorted := SortByKey(s, key);
    var k := if n < |s| then n else |s|;
    PrefixIsSmallest(sorted, key, k);
    sorted[..k]
  }

  lemma PrefixIsSmallest<T>(s: seq<T>, key: T -> real, k: nat)
    requires Ascending(s, key) && k <= |s|
    ensures multiset(s[..k]) <= multiset(s)
    ensures forall x, y :: x in s[..k] && y in multiset(s) - multiset(s[..k]) ==> key(x) <= key(y)
  {
    assert s == s[..k] + s[k..];
    assert multiset(s) == multiset(s[..k]) + multiset(s[k..]);
    forall x, y | x in s[..k] && y in multiset(s) - multiset(s[..k])
      ensures key(x) <= key(y)
    {
      assert y in multiset(s[k..]);
      PrefixBelowSuffix(s, key, k, x, y);
    }
  }

  lemma PrefixBelowSuffix<T>(s: seq<T>, key: T -> real, k: nat, x: T, y: T)
    requires Ascending(s, key) && k <= |s|
    requires x in s[..k] && y in s[k..]
    ensures key(x) <= key(y)
  {
    var i :| 0 <= i < k && s[i] == x;
    var j :| k <= j < |s| && s[j] == y;
  }

  function SumBy<T>(s: seq<T>, w: T -> real): real
  {
    if s == [] then 0.0 else w(s[0]) + SumBy(s[1..], w)
  }

  lemma {:induction false} InsertKeepsSum<T>(x: T, s: seq<T>, key: T -> real, w: T -> real)
    requires Ascending(s, key)
    ensures SumBy(Insert(x, s, key), w) == w(x) + SumBy(s, w)
  {
    if s == [] || key(x) <= key(s[0]) {
      assert ([x] + s)[1..] == s;
    } else {
      InsertKeepsSum(x, s[1..], key, w);
      assert ([s[0]] + Insert(x, s[1..], key))[1..] == Insert(x, s[1..], key);
    }
  }

  /** Sorting does not change a sum over the elements. */
  lemma {:induction false} SortKeepsSum<T>(s: seq<T>, key: T -> real, w: T -> real)
    ensures SumBy(SortByKey(s, key), w) == SumBy(s, w)
  {
    if s != [] {
      SortKeepsSum(s[1..], key, w);
      InsertKeepsSum(s[0], SortByKey(s[1..], key), key, w);
    }
  }
}
