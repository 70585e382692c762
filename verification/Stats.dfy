/**
 The statistics a condition is judged by: the median and its absolute deviation, the scale a
 robust z-score divides by, and the Wilson interval a proportion is compared through.
 */
module Stats {
  import opened Options
  import Sorting

  /** math.Sqrt; each property names the one radicand at which it relies on it being the root. */
  const SquareRoot: real -> real

  ghost predicate RootAt(x: real) {
    SquareRoot(x) >= 0.0 && SquareRoot(x) * SquareRoot(x) == x
  }

  function MaxReal(a: real, b: real): real { if a >= b then a else b }

  function MinReal(a: real, b: real): real { if a <= b then a else b }

  function Abs(x: real): real { if x < 0.0 then -x else x }

  // ----- median and MAD ------------------------------------------------------------------------

  predicate RealLeq(a: real, b: real) { a <= b }

  lemma RealLeqIsTotal()
    ensures Sorting.TotalOrder(RealLeq)
  {}

  function SortedReals(values: seq<real>): (r: seq<real>)
    ensures Sorting.Ordered(RealLeq, r) && multiset(r) == multiset(values) && |r| == |values|
  {
    RealLeqIsTotal();
    Sorting.SortBy(RealLeq, values)
  }

  /** The middle value of the sorted copy, averaging the two middle values of an even sample. */
  function Median(values: seq<real>): Option<real> {
    if |values| == 0 then None
    else
      var sorted := SortedReals(values);
      var mid := |sorted| / 2;
      if |sorted| % 2 == 1 then Some(sorted[mid]) else Some((sorted[mid - 1] + sorted[mid]) / 2.0)
  }

  function Deviations(values: seq<real>, m: real): (r: seq<real>)
    ensures |r| == |values| && forall i :: 0 <= i < |r| ==> r[i] == Abs(values[i] - m)
  {
    seq(|values|, i requires 0 <= i < |values| => Abs(values[i] - m))
  }

  datatype Spread = Spread(median: real, mad: real)

  function MAD(values: seq<real>): Option<Spread> {
    if values == [] then None
    else
      var m := Median(values).value;
      Some(Spread(m, Median(Deviations(values, m)).value))
  }

  /** MAD as it runs: the deviations are filled into a slice of their own, in a loop. */
  method ComputeMAD(values: seq<real>) returns (r: Option<Spread>)
    ensures r == MAD(values) && (r.Some? <==> values != [])
  {
    var m := Median(values);
    if m.None? {
      return None;
    }
    var deviations := new real[|values|];
    for i := 0 to |values|
      invariant forall j :: 0 <= j < i ==> deviations[j] == Abs(values[j] - m.value)
    {
      deviations[i] := Abs(values[i] - m.value);
    }
    assert deviations[..] == Deviations(values, m.value);
    var d := Median(deviations[..]);
    return Some(Spread(m.value, d.value));
  }

  /** How many values of the sample lie in [a, b]. */
  function CountIn(xs: seq<real>, a: real, b: real): (n: nat)
    ensures n <= |xs|
  {
    if xs == [] then 0 else (if a <= xs[0] <= b then 1 else 0) + CountIn(xs[1..], a, b)
  }

  lemma {:induction false} CountInConcat(xs: seq<real>, ys: seq<real>, a: real, b: real)
    ensures CountIn(xs + ys, a, b) == CountIn(xs, a, b) + CountIn(ys, a, b)
  {
    if xs == [] {
      assert xs + ys == ys;
    } else {
      assert (xs + ys)[1..] == xs[1..] + ys;
      CountInConcat(xs[1..], ys, a, b);
    }
  }

  /** Taking the element at j out takes exactly its own share out of the count and of the contents. */
  lemma TakeOut(ys: seq<real>, j: nat, a: real, b: real)
    requires j < |ys|
    ensures var rest := ys[..j] + ys[j + 1..];
            && multiset(rest) == multiset(ys) - multiset{ys[j]}
            && CountIn(ys, a, b) == CountIn(rest, a, b) + (if a <= ys[j] <= b then 1 else 0)
  {
    assert ys == ys[..j] + ([ys[j]] + ys[j + 1..]);
    CountInConcat(ys[..j], [ys[j]] + ys[j + 1..], a, b);
    CountInConcat([ys[j]], ys[j + 1..], a, b);
    CountInConcat(ys[..j], ys[j + 1..], a, b);
  }

  lemma {:induction false} CountInPermutes(xs: seq<real>, ys: seq<real>, a: real, b: real)
    requires multiset(xs) == multiset(ys)
    ensures CountIn(xs, a, b) == CountIn(ys, a, b)
  {
    if xs == [] {
      assert |multiset(ys)| == 0;
    } else {
      assert xs[0] in multiset(ys);
      var j :| 0 <= j < |ys| && ys[j] == xs[0];
      var rest := ys[..j] + ys[j + 1..];
      TakeOut(ys, j, a, b);
      assert multiset(xs[1..]) == multiset(rest) by { assert xs == [xs[0]] + xs[1..]; }
      CountInPermutes(xs[1..], rest, a, b);
    }
  }

  lemma {:induction false} NoneInside(xs: seq<real>, a: real, b: real)
    requires forall i :: 0 <= i < |xs| ==> xs[i] < a || b < xs[i]
    ensures CountIn(xs, a, b) == 0
  {
    if xs != [] { NoneInside(xs[1..], a, b); }
  }

  /** A value outside the majority's range leaves the majority on one side of it. */
  lemma OutsideLeavesTheRest(s: seq<real>, i: nat, a: real, b: real)
    requires Sorting.Ordered(RealLeq, s) && i < |s|
    ensures s[i] < a ==> CountIn(s, a, b) <= |s| - i - 1
    ensures b < s[i] ==> CountIn(s, a, b) <= i
  {
    hide CountIn;
    if s[i] < a {
      assert s == s[..i + 1] + s[i + 1..];
      forall k | 0 <= k <= i ensures s[k] < a { assert k == i || RealLeq(s[k], s[i]); }
      NoneInside(s[..i + 1], a, b);
      CountInConcat(s[..i + 1], s[i + 1..], a, b);
    }
    if b < s[i] {
      assert s == s[..i] + s[i..];
      forall k | i <= k < |s| ensures b < s[k] { assert k == i || RealLeq(s[i], s[k]); }
      NoneInside(s[i..], a, b);
      CountInConcat(s[..i], s[i..], a, b);
    }
  }

  /** With the majority inside, neither middle position can be outside. */
  lemma MiddleIsInside(s: seq<real>, i: nat, a: real, b: real)
    requires Sorting.Ordered(RealLeq, s) && 2 * CountIn(s, a, b) > |s|
    requires i < |s| && (i == |s| / 2 || (i == |s| / 2 - 1 && |s| % 2 == 0))
    ensures a <= s[i] <= b
  {
    OutsideLeavesTheRest(s, i, a, b);
  }

  /** More than half of a sample in [a, b] holds the median there, whatever the rest reads. */
  lemma MedianIsRobust(xs: seq<real>, a: real, b: real)
    requires 2 * CountIn(xs, a, b) > |xs|
    ensures a <= Median(xs).value <= b
  {
    hide CountIn, Sorting.Ordered, Sorting.SortBy, SortedReals;
    var s := SortedReals(xs);
    CountInPermutes(xs, s, a, b);
    MiddleIsInside(s, |s| / 2, a, b);
    if |s| % 2 == 0 {
      MiddleIsInside(s, |s| / 2 - 1, a, b);
    }
  }

  lemma {:induction false} DeviationsStayClose(xs: seq<real>, m: real, a: real, b: real)
    requires a <= m <= b
    ensures CountIn(Deviations(xs, m), 0.0, b - a) >= CountIn(xs, a, b)
  {
    if xs != [] {
      DeviationsStayClose(xs[1..], m, a, b);
      assert Deviations(xs, m)[1..] == Deviations(xs[1..], m);
    }
  }

  /** And it bounds the deviation by the majority's own width, however wild the minority is. */
  lemma MADIsRobust(xs: seq<real>, a: real, b: real)
    requires 2 * CountIn(xs, a, b) > |xs|
    ensures a <= MAD(xs).value.median <= b && 0.0 <= MAD(xs).value.mad <= b - a
  {
    MedianIsRobust(xs, a, b);
    DeviationMedianIsRobust(xs, Median(xs).value, a, b);
  }

  lemma DeviationMedianIsRobust(xs: seq<real>, m: real, a: real, b: real)
    requires 2 * CountIn(xs, a, b) > |xs| && a <= m <= b
    ensures 0.0 <= Median(Deviations(xs, m)).value <= b - a
  {
    DeviationsStayClose(xs, m, a, b);
    MedianIsRobust(Deviations(xs, m), 0.0, b - a);
  }

  /** A bare half is not enough: n outliers against n zeros move the median as far as they like. */
  lemma HalfIsNotRobust(n: nat, far: real)
    requires n > 0 && far >= 0.0
    ensures var xs := seq(n, _ => 2.0 * far) + seq(n, _ => 0.0);
            2 * CountIn(xs, 0.0, 0.0) >= |xs| && Median(xs) == Some(far)
  {
    var high, low := seq(n, _ => 2.0 * far), seq(n, _ => 0.0);
    CountInConcat(high, low, 0.0, 0.0);
    AllInside(low, 0.0, 0.0);
    StackedIsSorted(low, high, n, far);
  }

  lemma StackedIsSorted(low: seq<real>, high: seq<real>, n: nat, far: real)
    requires n > 0 && far >= 0.0 && |low| == n && |high| == n
    requires forall i :: 0 <= i < n ==> low[i] == 0.0 && high[i] == 2.0 * far
    ensures Median(high + low) == Some(far)
  {
    hide Sorting.SortBy, SortedReals;
    var s := low + high;
    assert multiset(s) == multiset(high + low);
    SortedIsUnique(s, high + low);
    assert s[n - 1] == 0.0 && s[n] == 2.0 * far;
  }

  lemma SortedIsUnique(s: seq<real>, xs: seq<real>)
    requires Sorting.Ordered(RealLeq, s) && multiset(s) == multiset(xs)
    ensures s == SortedReals(xs)
  {
    RealLeqIsTotal();
    Sorting.OrderedIsUnique(RealLeq, s, SortedReals(xs));
  }

  lemma {:induction false} AllInside(xs: seq<real>, a: real, b: real)
    requires forall i :: 0 <= i < |xs| ==> a <= xs[i] <= b
    ensures CountIn(xs, a, b) == |xs|
  {
    if xs != [] { AllInside(xs[1..], a, b); }
  }

  lemma MADIsNotNegative(xs: seq<real>)
    requires xs != []
    ensures MAD(xs).value.mad >= 0.0
  {
    hide Sorting.SortBy, SortedReals;
    var ds := SortedReals(Deviations(xs, Median(xs).value));
    forall i | 0 <= i < |ds| ensures ds[i] >= 0.0 {
      assert ds[i] in multiset(Deviations(xs, Median(xs).value));
    }
  }

  // ----- scale ---------------------------------------------------------------------------------

  const MAD_TO_SIGMA := 1.4826

  function Scale(median: real, mad: real, countLike: bool, minScale: real): real {
    var scale := mad * MAD_TO_SIGMA;
    var floored := if countLike then MaxReal(scale, SquareRoot(MaxReal(median, 1.0))) else scale;
    MaxReal(floored, minScale)
  }

  lemma BelowOneSquaresBelowOne(r: real)
    ensures 0.0 <= r < 1.0 ==> r * r < 1.0
  {
    if 0.0 <= r < 1.0 {
      Scaled(r, 1.0, r);
    }
  }

  lemma Scaled(x: real, y: real, factor: real)
    requires x <= y && factor >= 0.0
    ensures x * factor <= y * factor
  {}

  lemma RootAtLeastOne(x: real)
    requires RootAt(x) && x >= 1.0
    ensures SquareRoot(x) >= 1.0
  {
    BelowOneSquaresBelowOne(SquareRoot(x));
  }

  /**
   The scale a z-score divides by is positive exactly when the history moved, the metric counts
   things, or the operator set a floor; otherwise the division is by zero.
   */
  lemma ScalePositive(median: real, mad: real, countLike: bool, minScale: real)
    requires mad >= 0.0 && RootAt(MaxReal(median, 1.0))
    ensures Scale(median, mad, countLike, minScale) > 0.0 <==> mad > 0.0 || countLike || minScale > 0.0
    ensures countLike ==> Scale(median, mad, countLike, minScale) >= 1.0
    ensures Scale(median, mad, countLike, minScale) >= 0.0
  {
    RootAtLeastOne(MaxReal(median, 1.0));
  }
}
