/**
 A condition finds its window by time, so a series that reaches further back (or further on) than
 it asked for changes nothing it says.
 */
module Locality {
  import Queries
  import opened SeriesGrid
  import opened SeriesBuffers
  import opened Conditions

  /** w holds the whole of s, d buckets in. */
  ghost predicate Embedded(s: Series, w: Series, d: nat) {
    && WholeMillis(s.step) && w.step == s.step
    && s.startMS == w.startMS + d * s.StepMS()
    && |s.values| + d <= |w.values| && |s.denominator| <= |s.values|
    && (forall i :: 0 <= i < |s.values| ==>
          At(s.values, i) == At(w.values, i + d) && At(s.denominator, i) == At(w.denominator, i + d))
  }

  lemma BucketStartShifts(s: Series, w: Series, d: nat, i: int)
    requires Embedded(s, w, d)
    ensures s.BucketStart(i) == w.BucketStart(i + d)
  {
    assert (i + d) * s.StepMS() == i * s.StepMS() + d * s.StepMS();
  }

  lemma {:induction false} PartsShift(s: Series, w: Series, d: nat, lo: int, hi: int)
    requires Embedded(s, w, d) && 0 <= lo && hi <= |s.values|
    ensures RatioParts(s, lo, hi) == RatioParts(w, lo + d, hi + d)
    decreases if lo < hi then hi - lo else 0
  {
    if lo < hi {
      PartsShift(s, w, d, lo, hi - 1);
      assert At(s.values, hi - 1) == At(w.values, hi - 1 + d);
    }
  }

  lemma RolledShift(s: Series, w: Series, d: nat, agg: Queries.Aggregate, window: int, need: int, i: nat)
    requires Embedded(s, w, d) && 1 <= window <= i + 1 <= |s.values|
    ensures RolledAt(s, agg, window, need, i) == RolledAt(w, agg, window, need, i + d)
  {
    hide Reduced;
    var lo := i - window + 1;
    if agg == Queries.Ratio {
      PartsShift(s, w, d, lo, i + 1);
    } else {
      KnownShift(s.values, w.values, lo, i + 1, d);
    }
  }

  /** Where the window of `buckets` buckets sits in each of the two series. */
  ghost predicate Located(s: Series, w: Series, d: nat, now: int, buckets: int)
    requires Embedded(s, w, d)
  {
    var n := |s.values|;
    && 1 <= buckets <= n
    && WindowIndices(s, now, buckets) == IndexRange(n - buckets, n)
    && WindowIndices(w, now, buckets) == IndexRange(n - buckets + d, n + d)
  }

  lemma ThresholdIsLocal(c: Condition, now: int, s: Series, w: Series, d: nat)
    requires c.params.Threshold? && c.WellFormed() && Embedded(s, w, d)
    requires Located(s, w, d, now, c.params.t.windowBuckets)
    ensures Judge(c, now, s) == Judge(c, now, w)
  {
    hide PlainVerdict, RatioVerdict, WindowIndices;
    var n, k := |s.values|, c.params.t.windowBuckets;
    KnownShift(s.values, w.values, n - k, n, d);
    KnownShift(s.denominator, w.denominator, n - k, n, d);
    BucketStartShifts(s, w, d, n - k);
    BucketStartShifts(s, w, d, n);
  }

  lemma AbsenceIsLocal(c: Condition, now: int, s: Series, w: Series, d: nat)
    requires c.params.Absence? && c.WellFormed() && Embedded(s, w, d) && c.Span() == |s.values|
    requires Located(s, w, d, now, c.params.a.forBuckets)
    ensures Judge(c, now, s) == Judge(c, now, w)
  {
    hide WindowIndices;
    var n, k, b := |s.values|, c.params.a.forBuckets, c.params.a.baselineBuckets;
    ActiveShift(s.values, w.values, n - k, n, d);
    ActiveShift(s.values, w.values, n - k - b, n - k, d);
    BucketStartShifts(s, w, d, n - k);
    BucketStartShifts(s, w, d, n);
  }

  lemma RolledColumnsAgree(c: Condition, p: SpikeParams, s: Series, w: Series, d: nat, lo: int, hi: int)
    requires Embedded(s, w, d) && 1 <= p.windowBuckets <= lo + 1 && hi <= |s.values|
    ensures var r := Rolled(s, c.agg, p.windowBuckets, p.minSamples).values;
            var q := Rolled(w, c.agg, p.windowBuckets, p.minSamples).values;
            && (forall i :: lo <= i < hi ==> At(r, i) == At(q, i + d))
            && KnownIn(r, lo, hi) == KnownIn(q, lo + d, hi + d)
  {
    hide RolledAt;
    var r := Rolled(s, c.agg, p.windowBuckets, p.minSamples).values;
    var q := Rolled(w, c.agg, p.windowBuckets, p.minSamples).values;
    forall i | lo <= i < hi ensures At(r, i) == At(q, i + d) {
      RolledShift(s, w, d, c.agg, p.windowBuckets, p.minSamples, i);
    }
    KnownShift(r, q, lo, hi, d);
  }

  lemma SpikeIsLocal(c: Condition, now: int, s: Series, w: Series, d: nat)
    requires c.params.Spike? && c.WellFormed() && Embedded(s, w, d) && c.Span() == |s.values|
    requires Located(s, w, d, now, c.params.s.windowBuckets)
    ensures Judge(c, now, s) == Judge(c, now, w)
  {
    hide WindowIndices, Compared, Rolled, KnownIn;
    var p, n := c.params.s, |s.values|;
    var k, last := p.windowBuckets, n - 1 - p.guardBuckets;
    BucketStartShifts(s, w, d, n - k);
    BucketStartShifts(s, w, d, n);
    KnownShift(s.values, w.values, n - k, n, d);
    KnownShift(s.denominator, w.denominator, n - k, n, d);
    RolledColumnsAgree(c, p, s, w, d, last - p.baselineBuckets, last);
    RolledColumnsAgree(c, p, s, w, d, n - 1, n);
  }

  lemma IsLocal(c: Condition, now: int, s: Series, w: Series, d: nat)
    requires c.WellFormed() && Embedded(s, w, d) && c.Span() == |s.values|
    requires forall k :: 1 <= k <= |s.values| ==> Located(s, w, d, now, k)
    ensures Judge(c, now, s) == Judge(c, now, w)
  {
    hide Judge, Located;
    match c.params {
      case Threshold(p) => assert Located(s, w, d, now, p.windowBuckets); ThresholdIsLocal(c, now, s, w, d);
      case Spike(p) => assert Located(s, w, d, now, p.windowBuckets); SpikeIsLocal(c, now, s, w, d);
      case Absence(p) => assert Located(s, w, d, now, p.forBuckets); AbsenceIsLocal(c, now, s, w, d);
    }
  }

  // ----- cuts of one ground truth ----------------------------------------------------------------

  lemma WindowEndsAt(s: Series, start: int, m: nat, now: int, k: int)
    requires WholeMillis(s.step) && s.startMS == UnixMilli(start)
    requires ReadableEnd(now, s.step) == start + m * s.step
    requires 1 <= k <= m <= |s.values|
    ensures WindowIndices(s, now, k) == IndexRange(m - k, m)
  {
    MilliShift(start, m, s.step);
    MultipleDivides(m, s.StepMS());
    MultipleIsLarge(s.StepMS(), m);
  }

  lemma CutsEmbed(
      s: Series, w: Series, reading: int -> Reading, from: int, n: nat, start: int, m: nat, d: nat, step: int)
    requires WholeMillis(step) && from == start + d * step && n + d <= m
    requires CutOf(s, reading, from, n, step) && CutOf(w, reading, start, m, step)
    ensures Embedded(s, w, d)
  {
    MilliShift(start, d, step);
    forall i | 0 <= i < n
      ensures At(s.values, i) == At(w.values, i + d) && At(s.denominator, i) == At(w.denominator, i + d)
    {
      assert from + i * step == start + (i + d) * step;
      assert Reading(At(s.values, i), At(s.denominator, i)) == reading(from + i * step);
      assert Reading(At(w.values, i + d), At(w.denominator, i + d)) == reading(start + (i + d) * step);
    }
  }

  lemma SpanIsPositive(c: Condition)
    requires c.WellFormed()
    ensures c.Span() >= 1
  {}

  /**
   Judged on any longer stretch of the same buckets, a condition says exactly what it says on the
   stretch it asked for: the verdict, the observation, the baseline, the samples and the window.
   */
  lemma JudgedAlikeOnWider(
      c: Condition, now: int, s: Series, w: Series, reading: int -> Reading, start: int, m: nat, d: nat)
    requires c.WellFormed() && WholeMillis(c.step)
    requires CutOf(s, reading, c.QueryAt(now).from, c.Span(), c.step)
    requires CutOf(w, reading, start, m, c.step)
    requires c.QueryAt(now).from == start + d * c.step && c.Span() + d <= m
    ensures Judge(c, now, s) == Judge(c, now, w)
  {
    hide Judge, CutOf;
    var q, n := c.QueryAt(now), c.Span();
    SpanIsPositive(c);
    CutsEmbed(s, w, reading, q.from, n, start, m, d, c.step);
    assert q.to == q.from + n * c.step == start + (n + d) * c.step;
    forall k | 1 <= k <= n ensures Located(s, w, d, now, k) {
      CutShape(s, reading, q.from, n, c.step);
      CutShape(w, reading, start, m, c.step);
      WindowEndsAt(s, q.from, n, now, k);
      WindowEndsAt(w, start, n + d, now, k);
    }
    CutShape(s, reading, q.from, n, c.step);
    IsLocal(c, now, s, w, d);
  }

  lemma CutShape(s: Series, reading: int -> Reading, from: int, n: nat, step: int)
    requires CutOf(s, reading, from, n, step)
    ensures s.step == step && s.startMS == UnixMilli(from) && |s.values| == n
  {}
}
