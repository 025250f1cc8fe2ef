/** `heapq.nlargest(n, iterable, key)`. For `n >= 1` its documented
    equivalent is `sorted(iterable, key=key, reverse=True)[:n]`; for
    `n <= 0` it returns `[]` at once and computes no key, so overall it is
    `sorted(...)[:max(n, 0)]`. Python's sort is stable also when reversed,
    so elements with equal keys keep their input order. The model is a
    stable descending insertion sort followed by a slice of
    `min(max(n, 0), len)` elements. */
module Rank {

  predicate NonIncreasing<T>(s: seq<T>, key: T -> real) {
    forall i, j :: 0 <= i < j < |s| ==> key(s[i]) >= key(s[j])
  }

  /** Puts `x` in front of the first element whose key is not larger, that
      is after every element with a strictly larger key. */
  function InsertDesc<T>(x: T, s: seq<T>, key: T -> real): (r: seq<T>)
    ensures multiset(r) == multiset(s) + multiset{x}
    ensures |r| == |s| + 1
    ensures r[0] == x || (s != [] && r[0] == s[0])
  {
    if s == [] then [x]
    else if key(s[0]) <= key(x) then [x] + s
    else
      assert s == [s[0]] + s[1..];
      [s[0]] + InsertDesc(x, s[1..], key)
  }

  /** `sorted(s, key=key, reverse=True)`. */
  function SortDesc<T>(s: seq<T>, key: T -> real): (r: seq<T>)
    ensures multiset(r) == multiset(s)
    ensures |r| == |s|
  {
    if s == [] then []
    else
      assert s == [s[0]] + s[1..];
      InsertDesc(s[0], SortDesc(s[1..], key), key)
  }

  /** `heapq.nlargest(n, s, key)`: `min(max(n, 0), len(s))` elements, each
      taken from `s`. */
  function NLargest<T>(n: int, s: seq<T>, key: T -> real): (r: seq<T>)
    ensures |r| == if n <= 0 then 0 else if n < |s| then n else |s|
    ensures forall x :: x in r ==> x in s
  {
    var k := if n <= 0 then 0 else if n < |s| then n else |s|;
    var sorted := SortDesc(s, key);
    assert forall x :: x in sorted[..k] ==> x in multiset(sorted);
    sorted[..k]
  }

  /** The elements of `s` whose key equals `v`, in the order of `s`. */
  function Filter<T>(s: seq<T>, key: T -> real, v: real): seq<T> {
    if s == [] then []
    else (if key(s[0]) == v then [s[0]] else []) + Filter(s[1..], key, v)
  }

  lemma {:induction false} InsertDescSorted<T>(x: T, s: seq<T>, key: T -> real)
    requires NonIncreasing(s, key)
    ensures NonIncreasing(InsertDesc(x, s, key), key)
  {
    if s != [] && key(s[0]) > key(x) {
      InsertDescSorted(x, s[1..], key);
      var r' := InsertDesc(x, s[1..], key);
      assert key(s[0]) >= key(r'[0]);
    }
  }

  /** The sort yields non-increasing keys. */
  lemma {:induction false} SortDescSorted<T>(s: seq<T>, key: T -> real)
    ensures NonIncreasing(SortDesc(s, key), key)
  {
    if s != [] {
      SortDescSorted(s[1..], key);
      InsertDescSorted(s[0], SortDesc(s[1..], key), key);
    }
  }

  lemma {:induction false} FilterInsertDesc<T>(x: T, s: seq<T>, key: T -> real, v: real)
    requires NonIncreasing(s, key)
    ensures Filter(InsertDesc(x, s, key), key, v)
         == (if key(x) == v then [x] else []) + Filter(s, key, v)
  {
    if s == [] {
      assert InsertDesc(x, s, key) == [x];
      assert [x][1..] == [];
    } else if key(s[0]) <= key(x) {
      assert InsertDesc(x, s, key) == [x] + s;
      assert ([x] + s)[1..] == s;
    } else {
      FilterInsertDesc(x, s[1..], key, v);
      var xs: seq<T> := if key(x) == v then [x] else [];
      var rest := InsertDesc(x, s[1..], key);
      assert InsertDesc(x, s, key) == [s[0]] + rest;
      assert s == [s[0]] + s[1..];
      FilterPastHead(s[0], rest, s[1..], xs, key, v);
    }
  }

  /** Filtering past a head `y` that at most one of `y` and `xs` survives:
      moving `xs` across `y` does not change the filtered sequence. */
  lemma FilterPastHead<T>(y: T, rest: seq<T>, t: seq<T>, xs: seq<T>, key: T -> real, v: real)
    requires Filter(rest, key, v) == xs + Filter(t, key, v)
    requires key(y) != v || xs == []
    ensures Filter([y] + rest, key, v) == xs + Filter([y] + t, key, v)
  {
    assert ([y] + rest)[1..] == rest;
    assert ([y] + t)[1..] == t;
    if key(y) == v {
      assert Filter([y] + rest, key, v) == [y] + Filter(rest, key, v);
      assert Filter([y] + t, key, v) == [y] + Filter(t, key, v);
      assert xs + Filter(t, key, v) == Filter(t, key, v);
    } else {
      assert Filter([y] + rest, key, v) == [] + Filter(rest, key, v);
      assert [] + Filter(rest, key, v) == Filter(rest, key, v);
      assert Filter([y] + t, key, v) == [] + Filter(t, key, v);
      assert [] + Filter(t, key, v) == Filter(t, key, v);
    }
  }

  /** Stability: among elements with equal keys the sort keeps input order. */
  lemma {:induction false} SortDescStable<T>(s: seq<T>, key: T -> real, v: real)
    ensures Filter(SortDesc(s, key), key, v) == Filter(s, key, v)
  {
    if s != [] {
      SortDescStable(s[1..], key, v);
      SortDescSorted(s[1..], key);
      FilterInsertDesc(s[0], SortDesc(s[1..], key), key, v);
    }
  }

  lemma {:induction false} FilterPrefix<T>(s: seq<T>, k: nat, key: T -> real, v: real)
    requires k <= |s|
    ensures Filter(s[..k], key, v) <= Filter(s, key, v)
  {
    if k > 0 {
      assert s[..k][1..] == s[1..][..k - 1];
      assert s[..k][0] == s[0];
      FilterPrefix(s[1..], k - 1, key, v);
    }
  }

  /** What `nlargest` promises about its selection: keys non-increasing;
      no element left out has a strictly larger key than one chosen; the
      chosen elements are distinct when the input is; and among equal keys
      the chosen ones are the first of them in input order. */
  lemma NLargestSelects<T>(n: int, s: seq<T>, key: T -> real)
    ensures var r := NLargest(n, s, key);
      && NonIncreasing(r, key)
      && (forall x, y :: x in s && x !in r && y in r ==> key(x) <= key(y))
      && multiset(r) <= multiset(s)
      && (forall v :: Filter(r, key, v) <= Filter(s, key, v))
  {
    var k := if n <= 0 then 0 else if n < |s| then n else |s|;
    var sorted := SortDesc(s, key);
    SortDescSorted(s, key);
    PrefixOfSorted(sorted, k, key);
    assert NLargest(n, s, key) == sorted[..k];
    forall x | x in s
      ensures x in sorted
    {
      assert x in multiset(s);
    }
    forall v
      ensures Filter(sorted[..k], key, v) <= Filter(s, key, v)
    {
      FilterPrefix(sorted, k, key, v);
      SortDescStable(s, key, v);
    }
  }

  /** A prefix of a non-increasing sequence is non-increasing, a
      sub-multiset of it, and no element after it has a larger key than
      one inside it. */
  lemma PrefixOfSorted<T>(sorted: seq<T>, k: nat, key: T -> real)
    requires k <= |sorted| && NonIncreasing(sorted, key)
    ensures var r := sorted[..k];
      && NonIncreasing(r, key)
      && (forall x, y :: x in sorted && x !in r && y in r ==> key(x) <= key(y))
      && multiset(r) <= multiset(sorted)
  {
    var r := sorted[..k];
    assert sorted == r + sorted[k..];
    forall x, y | x in sorted && x !in r && y in r
      ensures key(x) <= key(y)
    {
      var i :| 0 <= i < |sorted| && sorted[i] == x;
      var j :| 0 <= j < |r| && r[j] == y;
      assert i >= k;
    }
    assert multiset(sorted) == multiset(r) + multiset(sorted[k..]);
  }

  /** With a distinct input the selection is distinct too. */
  lemma NLargestDistinct<T>(n: int, s: seq<T>, key: T -> real)
    requires forall i, j :: 0 <= i < j < |s| ==> s[i] != s[j]
    ensures var r := NLargest(n, s, key);
      forall i, j :: 0 <= i < j < |r| ==> r[i] != r[j]
  {
    var r := NLargest(n, s, key);
    NLargestSelects(n, s, key);
    forall i, j | 0 <= i < j < |r|
      ensures r[i] != r[j]
    {
      if r[i] == r[j] {
        TwiceInMultiset(r, i, j);
        MultisetAtMostOnce(s, r[i]);
        assert false;
      }
    }
  }

  lemma TwiceInMultiset<T>(r: seq<T>, i: int, j: int)
    requires 0 <= i < j < |r| && r[i] == r[j]
    ensures multiset(r)[r[i]] >= 2
  {
    assert r == r[..j] + r[j..];
    assert r[..j][i] == r[i] && r[j..][0] == r[i];
    assert multiset(r) == multiset(r[..j]) + multiset(r[j..]);
  }

  lemma {:induction false} MultisetAtMostOnce<T>(s: seq<T>, x: T)
    requires forall i, j :: 0 <= i < j < |s| ==> s[i] != s[j]
    ensures multiset(s)[x] <= 1
  {
    if s != [] {
      assert s == [s[0]] + s[1..];
      MultisetAtMostOnce(s[1..], x);
      if s[0] == x {
        assert x !in s[1..];
      }
    }
  }

  /** Asking for at least as many as there are returns them all, reordered. */
  lemma NLargestAll<T>(n: int, s: seq<T>, key: T -> real)
    requires n >= |s|
    ensures multiset(NLargest(n, s, key)) == multiset(s)
  {
    assert SortDesc(s, key)[..|s|] == SortDesc(s, key);
  }
}
