/** The per-group reductions the analyzer applies to a column of values:
    mean, minimum and median (for an even count, the mean of the two middle
    values of the sorted column). Values are exact reals. */
module Statistics {

  function Sum(s: seq<real>): real {
    if s == [] then 0.0 else s[0] + Sum(s[1..])
  }

  /** Summing distributes over concatenation. */
  lemma {:induction false} SumAppend(a: seq<real>, b: seq<real>)
    ensures Sum(a + b) == Sum(a) + Sum(b)
  {
    if a == [] {
      assert a + b == b;
    } else {
      assert (a + b)[1..] == a[1..] + b;
      SumAppend(a[1..], b);
    }
  }

  /** The total amount by which the values exceed `c` (negative where they fall short). */
  function Deviation(s: seq<real>, c: real): real {
    if s == [] then 0.0 else (s[0] - c) + Deviation(s[1..], c)
  }

  lemma {:induction false} DeviationIsSumMinusCount(s: seq<real>, c: real)
    ensures Deviation(s, c) == Sum(s) - |s| as real * c
  {
    if s != [] {
      DeviationIsSumMinusCount(s[1..], c);
      var n := |s[1..]| as real;
      assert (n + 1.0) * c == n * c + c;
    }
  }

  /** The values average to `c` exactly when their deviation from `c` is zero. */
  lemma MeanIsExactlyWhenNoDeviation(s: seq<real>, c: real)
    requires |s| > 0
    ensures Mean(s) == c <==> Deviation(s, c) == 0.0
  {
    DeviationIsSumMinusCount(s, c);
    var n := |s| as real;
    if Mean(s) == c {
      assert Sum(s) == Mean(s) * n;
    }
    if Deviation(s, c) == 0.0 {
      assert Sum(s) == n * c;
      assert Sum(s) / n == c;
    }
  }

  /** Values none of which is below `c` do not fall short of it in total. */
  lemma {:induction false} DeviationNonNegative(s: seq<real>, c: real)
    requires forall i :: 0 <= i < |s| ==> c <= s[i]
    ensures Deviation(s, c) >= 0.0
  {
    if s != [] {
      DeviationNonNegative(s[1..], c);
    }
  }

  /** The minimum never exceeds the mean. */
  lemma MinimumAtMostMean(s: seq<real>)
    requires |s| > 0
    ensures Minimum(s) <= Mean(s)
  {
    DeviationNonNegative(s, Minimum(s));
    MeanAtLeast(s, Minimum(s));
  }

  /** Values that exceed `c` in total average at least `c`. */
  lemma MeanAtLeast(s: seq<real>, c: real)
    requires |s| > 0 && Deviation(s, c) >= 0.0
    ensures Mean(s) >= c
  {
    DeviationIsSumMinusCount(s, c);
    QuotientAtLeast(Sum(s), |s| as real, c);
  }

  lemma QuotientAtLeast(total: real, n: real, m: real)
    requires n > 0.0 && total - n * m >= 0.0
    ensures total / n >= m
  {
    assert total / n - m == (total - n * m) / n;
  }

  /** The arithmetic mean. */
  function Mean(s: seq<real>): real
    requires |s| > 0
  {
    Sum(s) / |s| as real
  }

  /** The smallest value: no value is below it and it is one of the values. */
  function Minimum(s: seq<real>): (m: real)
    requires |s| > 0
    ensures m in s
    ensures forall i :: 0 <= i < |s| ==> m <= s[i]
  {
    if |s| == 1 then s[0]
    else
      var rest := Minimum(s[1..]);
      if s[0] <= rest then s[0] else rest
  }

  predicate Ascending(s: seq<real>) {
    forall i, j :: 0 <= i < j < |s| ==> s[i] <= s[j]
  }

  /** `x` placed into an ascending sequence before the first larger value. */
  function Insert(x: real, s: seq<real>): (r: seq<real>)
    requires Ascending(s)
    ensures Ascending(r)
    ensures multiset(r) == multiset(s) + multiset{x}
  {
    if s == [] || x <= s[0] then
      [x] + s
    else
      var rest := Insert(x, s[1..]);
      LowerBoundKept(s[0], x, s[1..], rest);
      assert s == [s[0]] + s[1..];
      [s[0]] + rest
  }

  /** A value below `x` and below every element of `s` stays below every
      element of any rearrangement of `s` with `x` added. */
  lemma LowerBoundKept(lo: real, x: real, s: seq<real>, r: seq<real>)
    requires lo <= x && (forall i :: 0 <= i < |s| ==> lo <= s[i])
    requires multiset(r) == multiset(s) + multiset{x}
    ensures forall i :: 0 <= i < |r| ==> lo <= r[i]
  {
    forall i | 0 <= i < |r| ensures lo <= r[i] {
      assert r[i] in multiset(r);
      if r[i] != x {
        assert r[i] in multiset(s);
      }
    }
  }

  /** The values in ascending order: an ascending permutation of the input. */
  function Sort(s: seq<real>): (r: seq<real>)
    ensures Ascending(r)
    ensures multiset(r) == multiset(s)
  {
    if s == [] then []
    else
      assert s == [s[0]] + s[1..];
      Insert(s[0], Sort(s[1..]))
  }

  /** The median: the middle of the sorted values for an odd count, the mean
      of the two middle ones for an even count. */
  function Median(s: seq<real>): real
    requires |s| > 0
  {
    var t := Sort(s);
    var n := |t|;
    assert n == |multiset(t)| == |multiset(s)| == |s|;
    if n % 2 == 1 then t[n / 2] else (t[n / 2 - 1] + t[n / 2]) / 2.0
  }

  /** There is only one ascending arrangement of a collection of values, so
      the median does not depend on how the values were sorted. */
  lemma {:induction false} AscendingPermutationUnique(a: seq<real>, b: seq<real>)
    requires Ascending(a) && Ascending(b) && multiset(a) == multiset(b)
    ensures a == b
    decreases |a|
  {
    assert |a| == |multiset(a)| == |multiset(b)| == |b|;
    if a != [] {
      assert a[0] in multiset(b) && b[0] in multiset(a);
      assert a[0] in b && b[0] in a;
      assert b[0] <= a[0] && a[0] <= b[0];
      assert a == [a[0]] + a[1..] && b == [b[0]] + b[1..];
      assert multiset(a) == multiset{a[0]} + multiset(a[1..]);
      assert multiset(b) == multiset{b[0]} + multiset(b[1..]);
      assert multiset(a[1..]) == multiset(a) - multiset{a[0]};
      assert multiset(b[1..]) == multiset(b) - multiset{b[0]};
      AscendingPermutationUnique(a[1..], b[1..]);
    }
  }

  lemma MedianOfAnyAscendingArrangement(s: seq<real>, t: seq<real>)
    requires |s| > 0 && Ascending(t) && multiset(t) == multiset(s)
    ensures |t| == |s|
    ensures Median(s) == if |t| % 2 == 1 then t[|t| / 2] else (t[|t| / 2 - 1] + t[|t| / 2]) / 2.0
  {
    AscendingPermutationUnique(Sort(s), t);
  }

  /** A column of one repeated value sums to its length times that value. */
  lemma {:induction false} SumOfConstant(s: seq<real>, v: real)
    requires forall i :: 0 <= i < |s| ==> s[i] == v
    ensures Sum(s) == |s| as real * v
  {
    if s != [] {
      SumOfConstant(s[1..], v);
    }
  }

  lemma MeanOfConstant(s: seq<real>, v: real)
    requires |s| > 0 && forall i :: 0 <= i < |s| ==> s[i] == v
    ensures Mean(s) == v
  {
    SumOfConstant(s, v);
  }

  /** The median lies between the smallest and the largest value: it is at
      least one value and at most another. */
  lemma MedianWithinValues(s: seq<real>)
    requires |s| > 0
    ensures Minimum(s) <= Median(s)
    ensures exists i :: 0 <= i < |s| && Median(s) <= s[i]
  {
    var t := Sort(s);
    var n := |t|;
    assert n == |multiset(t)| == |s|;
    SortedElementInInput(s, n / 2);
    if n % 2 == 0 {
      SortedElementInInput(s, n / 2 - 1);
    }
  }

  lemma SortedElementInInput(s: seq<real>, k: int)
    requires 0 <= k < |Sort(s)|
    ensures Sort(s)[k] in s
    ensures Minimum(s) <= Sort(s)[k]
  {
    assert Sort(s)[k] in multiset(Sort(s));
  }

  /** A column of one repeated value has that value as its median. */
  lemma MedianOfConstant(s: seq<real>, v: real)
    requires |s| > 0 && forall i :: 0 <= i < |s| ==> s[i] == v
    ensures Median(s) == v
  {
    var t := Sort(s);
    forall i | 0 <= i < |t| ensures t[i] == v {
      assert t[i] in multiset(s);
    }
  }

  /** Dividing every value by a non-zero constant divides the sum by it. */
  lemma {:induction false} SumScaled(s: seq<real>, c: real)
    requires c != 0.0
    ensures Sum(Scaled(s, c)) == Sum(s) / c
  {
    if s != [] {
      assert Scaled(s, c)[1..] == Scaled(s[1..], c);
      SumScaled(s[1..], c);
    }
  }

  /** Dividing every value by `c` divides the mean by `c`. */
  lemma MeanScaled(s: seq<real>, c: real)
    requires |s| > 0 && c > 0.0
    ensures Mean(Scaled(s, c)) == Mean(s) / c
  {
    SumScaled(s, c);
    DivideTwice(Sum(s), c, |s| as real);
  }

  lemma DivideTwice(x: real, a: real, b: real)
    requires a > 0.0 && b > 0.0
    ensures (x / a) / b == (x / b) / a
  {
  }

  /** Every value divided by `c`. */
  function Scaled(s: seq<real>, c: real): (r: seq<real>)
    requires c != 0.0
    ensures |r| == |s| && forall i :: 0 <= i < |s| ==> r[i] == s[i] / c
  {
    seq(|s|, i requires 0 <= i < |s| => s[i] / c)
  }
}
