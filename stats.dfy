/** The per-URL statistics of `generate_report`: `sum`, `max`, `sorted`, the
    median rule, the mean and the two percentages. Request times are real
    numbers; floating-point rounding is not modelled. */
module Stats {

  /** Python's `sum` of a list of times. */
  function Sum(s: seq<real>): real {
    if s == [] then 0.0 else s[0] + Sum(s[1..])
  }

  /** Python's `max` of a non-empty list. */
  function Max(s: seq<real>): (m: real)
    requires s != []
    ensures m in s
    ensures forall i :: 0 <= i < |s| ==> s[i] <= m
  {
    if |s| == 1 then s[0]
    else
      var rest := Max(s[1..]);
      assert forall i :: 1 <= i < |s| ==> s[i] == s[1..][i - 1];
      if s[0] >= rest then s[0] else rest
  }

  /** The smallest time, used only to state bounds. */
  function Min(s: seq<real>): (m: real)
    requires s != []
    ensures m in s
    ensures forall i :: 0 <= i < |s| ==> m <= s[i]
  {
    if |s| == 1 then s[0]
    else
      var rest := Min(s[1..]);
      assert forall i :: 1 <= i < |s| ==> s[i] == s[1..][i - 1];
      if s[0] <= rest then s[0] else rest
  }

  /** `sum(times) / len(times)`, the ranking key and the `time_avg` column. */
  function Mean(s: seq<real>): real
    requires s != []
  {
    Sum(s) / |s| as real
  }

  predicate IsSorted(s: seq<real>) {
    forall i, j :: 0 <= i < j < |s| ==> s[i] <= s[j]
  }

  function Insert(x: real, s: seq<real>): (r: seq<real>)
    requires IsSorted(s)
    ensures IsSorted(r)
    ensures multiset(r) == multiset(s) + multiset{x}
    ensures |r| == |s| + 1
    ensures r != [] && (r[0] == x || (s != [] && r[0] == s[0]))
  {
    if s == [] then [x]
    else if x <= s[0] then
      ConsSorted(x, s);
      [x] + s
    else
      assert s == [s[0]] + s[1..];
      var r' := Insert(x, s[1..]);
      ConsSorted(s[0], r');
      [s[0]] + r'
  }

  lemma ConsSorted(y: real, s: seq<real>)
    requires IsSorted(s) && (s == [] || y <= s[0])
    ensures IsSorted([y] + s)
  {
    var r := [y] + s;
    forall i, j | 0 <= i < j < |r|
      ensures r[i] <= r[j]
    {
      if i == 0 {
        assert r[j] == s[j - 1] && s[0] <= s[j - 1];
      } else {
        assert r[i] == s[i - 1] && r[j] == s[j - 1];
      }
    }
  }

  /** Python's `sorted(times)`: ascending, a permutation of its input. */
  function Sorted(s: seq<real>): (r: seq<real>)
    ensures IsSorted(r)
    ensures multiset(r) == multiset(s)
    ensures |r| == |s|
  {
    if s == [] then []
    else
      assert s == [s[0]] + s[1..];
      Insert(s[0], Sorted(s[1..]))
  }

  /** The `time_med` column: the middle element of the sorted times for an
      odd count, the mean of the two middle elements for an even count. */
  function Median(s: seq<real>): real
    requires s != []
  {
    var t := Sorted(s);
    var n := |t|;
    if n % 2 == 1 then t[n / 2] else (t[n / 2 - 1] + t[n / 2]) / 2.0
  }

  /** `count / total_entries * 100`. */
  function CountPercentage(count: nat, totalEntries: nat): real
    requires totalEntries > 0
  {
    count as real / totalEntries as real * 100.0
  }

  /** `time_sum / total_time * 100`. */
  function TimePercentage(timeSum: real, totalTime: real): real
    requires totalTime != 0.0
  {
    timeSum / totalTime * 100.0
  }

  // ---------------------------------------------------------------------
  // Bounds.

  lemma {:induction false} SumBounds(s: seq<real>, lo: real, hi: real)
    requires forall i :: 0 <= i < |s| ==> lo <= s[i] <= hi
    ensures |s| as real * lo <= Sum(s) <= |s| as real * hi
  {
    if s != [] {
      assert forall i :: 0 <= i < |s| - 1 ==> s[1..][i] == s[i + 1];
      SumBounds(s[1..], lo, hi);
    }
  }

  /** The mean lies between the smallest and the largest time. */
  lemma MeanBounds(s: seq<real>)
    requires s != []
    ensures Min(s) <= Mean(s) <= Max(s)
  {
    MeanBetween(s, Min(s), Max(s));
  }

  /** Times within `[lo, hi]` have their mean within it too. */
  lemma MeanBetween(s: seq<real>, lo: real, hi: real)
    requires s != []
    requires forall i :: 0 <= i < |s| ==> lo <= s[i] <= hi
    ensures lo <= Mean(s) <= hi
  {
    SumBounds(s, lo, hi);
    DivBounds(Sum(s), |s| as real, lo, hi);
  }

  /** A part of a positive whole is at most 100% of it, and the whole is
      exactly 100%. */
  lemma ShareAtMost100(part: real, total: real)
    requires part <= total && total > 0.0
    ensures part / total * 100.0 <= 100.0
    ensures part == total ==> part / total * 100.0 == 100.0
  {
    assert part / total <= 1.0;
  }

  lemma DivBounds(a: real, n: real, lo: real, hi: real)
    requires n > 0.0 && n * lo <= a <= n * hi
    ensures lo <= a / n <= hi
  {
    assert n * (a / n) == a;
  }

  lemma SortedElement(s: seq<real>, k: int)
    requires 0 <= k < |Sorted(s)|
    ensures Sorted(s)[k] in s
    ensures Min(s) <= Sorted(s)[k] <= Max(s)
  {
    var t := Sorted(s);
    assert t[k] in multiset(t);
  }

  /** The median lies between the smallest and the largest time. */
  lemma MedianBounds(s: seq<real>)
    requires s != []
    ensures Min(s) <= Median(s) <= Max(s)
  {
    var t := Sorted(s);
    var n := |t|;
    SortedElement(s, n / 2);
    if n % 2 == 0 {
      SortedElement(s, n / 2 - 1);
      MidpointBounds(t[n / 2 - 1], t[n / 2], Min(s), Max(s));
    }
  }

  lemma MidpointBounds(x: real, y: real, lo: real, hi: real)
    requires lo <= x <= hi && lo <= y <= hi
    ensures lo <= (x + y) / 2.0 <= hi
  {
  }

  /** For an odd count the median is an observed time. */
  lemma MedianObservedWhenOdd(s: seq<real>)
    requires |s| % 2 == 1
    ensures Median(s) in s
  {
    var t := Sorted(s);
    SortedElement(s, |t| / 2);
  }

  /** Sorting an already sorted list leaves it as it is. */
  lemma {:induction false} SortedIdentity(s: seq<real>)
    requires IsSorted(s)
    ensures Sorted(s) == s
  {
    if s != [] {
      SortedIdentity(s[1..]);
      assert s == [s[0]] + s[1..];
    }
  }

  /** For times already in order the median is read off directly: the
      middle time for an odd count, the mean of the two middle times for
      an even count. */
  lemma MedianOfSorted(s: seq<real>)
    requires s != [] && IsSorted(s)
    ensures |s| % 2 == 1 ==> Median(s) == s[|s| / 2]
    ensures |s| % 2 == 0 ==> Median(s) == (s[|s| / 2 - 1] + s[|s| / 2]) / 2.0
  {
    SortedIdentity(s);
    var t, n := Sorted(s), |s|;
    assert t == s;
    if n % 2 == 1 {
      assert Median(s) == t[n / 2];
    } else {
      assert Median(s) == (t[n / 2 - 1] + t[n / 2]) / 2.0;
    }
  }

  /** The median of two ordered times is their mean. */
  lemma MedianOfTwo(a: real, b: real)
    requires a <= b
    ensures Median([a, b]) == (a + b) / 2.0
  {
    assert IsSorted([a, b]);
    MedianOfSorted([a, b]);
  }

  /** The median of three ordered times is the middle one. */
  lemma MedianOfThree(a: real, b: real, c: real)
    requires a <= b <= c
    ensures Median([a, b, c]) == b
  {
    var s := [a, b, c];
    assert IsSorted(s) by {
      assert s[0] == a && s[1] == b && s[2] == c;
    }
    MedianOfSorted(s);
    assert |s| % 2 == 1 && |s| / 2 == 1;
  }

  /** Worked example of the test: [1.2, 3.4] has median 2.3. */
  lemma MedianExamples()
    ensures Median([1.2, 3.4]) == 2.3
  {
    MedianOfTwo(1.2, 3.4);
  }

  // ---------------------------------------------------------------------
  // Sums over a sequence of keys, for the `time %` column.

  /** The sum of `f` over the elements of `s`. */
  function SumBy<T>(s: seq<T>, f: T -> real): real {
    if s == [] then 0.0 else f(s[0]) + SumBy(s[1..], f)
  }

  lemma {:induction false} SumByRemove<T>(s: seq<T>, f: T -> real, j: int)
    requires 0 <= j < |s|
    ensures SumBy(s, f) == f(s[j]) + SumBy(s[..j] + s[j + 1..], f)
  {
    if j > 0 {
      SumByRemove(s[1..], f, j - 1);
      assert s[1..][..j - 1] + s[1..][j..] == (s[..j] + s[j + 1..])[1..];
    } else {
      assert s[..j] + s[j + 1..] == s[1..];
    }
  }

  /** Summing over a reordering gives the same total. */
  lemma {:induction false} SumByPermutation<T>(a: seq<T>, b: seq<T>, f: T -> real)
    requires multiset(a) == multiset(b)
    ensures SumBy(a, f) == SumBy(b, f)
    decreases |a|
  {
    if a != [] {
      assert a[0] in multiset(b);
      var j :| 0 <= j < |b| && b[j] == a[0];
      var b' := b[..j] + b[j + 1..];
      MultisetRemoveAt(b, j);
      MultisetRemoveAt(a, 0);
      assert a[..0] + a[1..] == a[1..];
      SumByPermutation(a[1..], b', f);
      SumByRemove(b, f, j);
    } else {
      assert |b| == |multiset(b)| == 0;
    }
  }

  /** Dropping the element at `j` drops one occurrence of it. */
  lemma MultisetRemoveAt<T>(s: seq<T>, j: int)
    requires 0 <= j < |s|
    ensures multiset(s[..j] + s[j + 1..]) == multiset(s) - multiset{s[j]}
  {
    assert s == s[..j] + [s[j]] + s[j + 1..];
  }

  /** With non-negative terms, a prefix sums to no more than the whole. */
  lemma {:induction false} SumByPrefix<T>(s: seq<T>, k: int, f: T -> real)
    requires 0 <= k <= |s|
    requires forall i :: 0 <= i < |s| ==> f(s[i]) >= 0.0
    ensures SumBy(s[..k], f) <= SumBy(s, f)
  {
    if k > 0 {
      assert s[..k][1..] == s[1..][..k - 1];
      SumByPrefix(s[1..], k - 1, f);
    } else {
      SumByNonNegative(s, f);
    }
  }

  lemma {:induction false} SumByNonNegative<T>(s: seq<T>, f: T -> real)
    requires forall i :: 0 <= i < |s| ==> f(s[i]) >= 0.0
    ensures SumBy(s, f) >= 0.0
  {
    if s != [] {
      SumByNonNegative(s[1..], f);
    }
  }

  lemma {:induction false} SumNonNegative(s: seq<real>)
    requires forall i :: 0 <= i < |s| ==> s[i] >= 0.0
    ensures Sum(s) >= 0.0
  {
    if s != [] {
      SumNonNegative(s[1..]);
    }
  }
}
