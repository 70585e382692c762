/**
 What it takes for a condition to fire: a proportion only when its point estimate would have too,
 a spike exactly when all of its gates are cleared, and the places where those gates stand aside.
 */
module Firing {
  import opened Options
  import opened Verdicts
  import FetchKeys
  import opened Queries
  import opened SeriesGrid
  import SeriesBuffers
  import opened Stats
  import opened Wilson
  import opened Conditions
  import Locality
  import Watches

  // ----- proportions -----------------------------------------------------------------------------

  ghost predicate RootFor(k: real, n: real, confidence: real)
    requires n > 0.0
  {
    var z := ZFor(confidence);
    RootAt(Radicand(k / n, z * z, n))
  }

  /** The compared bound is the side of the interval that fires later, whichever way the operator points. */
  lemma BoundIsConservative(op: Op, k: real, n: real, confidence: real, threshold: real)
    requires 0.0 <= k <= n && n > 0.0 && RootFor(k, n, confidence)
    ensures Bound(op, k, n, confidence).Some?
    ensures op.Compare(Bound(op, k, n, confidence).value, threshold) ==> op.Compare(k / n, threshold)
  {
    hide Residue, Radicand;
    WilsonInterval(k, n, confidence);
  }

  /** A ratio threshold that fires shows an observation that is itself past the threshold, on enough trials. */
  lemma RatioFiresOnItsPoint(p: ThresholdParams, numerators: seq<real>, n: real, out: Outcome)
    requires 0.0 <= SumOf(numerators) <= n
    requires n > 0.0 ==> RootFor(SumOf(numerators), n, p.confidence)
    ensures var r := RatioVerdict(p, numerators, n, out);
            r.verdict == True ==>
              && n > 0.0 && n >= p.minDenominator && |numerators| >= p.minSamples
              && r.observed == Some(SumOf(numerators) / n)
              && p.op.Compare(SumOf(numerators) / n, p.threshold)
  {
    hide Wilson.Wilson;
    if n > 0.0 {
      BoundIsConservative(p.op, SumOf(numerators), n, p.confidence, p.threshold);
    }
  }

  lemma BoundTightens(op: Op, k: real, n: real, j: real, m: real, confidence: real, threshold: real)
    requires 0.0 <= k <= n && 0.0 < n <= m && 0.0 <= j <= m && k / n == j / m
    requires RootFor(k, n, confidence) && RootFor(j, m, confidence)
    requires Bound(op, k, n, confidence).Some? && Bound(op, j, m, confidence).Some?
    requires op.Compare(Bound(op, k, n, confidence).value, threshold)
    ensures op.Compare(Bound(op, j, m, confidence).value, threshold)
  {
    hide Radicand, Wilson.Wilson;
    WilsonTightens(k, n, j, m, confidence);
  }

  /** More evidence for the same rate never withdraws an alarm. */
  lemma EvidenceNeverSilences(p: ThresholdParams, few: seq<real>, n: real, many: seq<real>, m: real, out: Outcome)
    requires 0.0 <= SumOf(few) <= n && 0.0 < n <= m && 0.0 <= SumOf(many) <= m
    requires |few| <= |many| && SumOf(few) / n == SumOf(many) / m
    requires RootFor(SumOf(few), n, p.confidence) && RootFor(SumOf(many), m, p.confidence)
    requires RatioVerdict(p, few, n, out).verdict == True
    ensures RatioVerdict(p, many, m, out).verdict == True
  {
    hide Radicand, Bound, RootFor;
    BoundIsConservative(p.op, SumOf(few), n, p.confidence, p.threshold);
    BoundIsConservative(p.op, SumOf(many), m, p.confidence, p.threshold);
    BoundTightens(p.op, SumOf(few), n, SumOf(many), m, p.confidence, p.threshold);
  }

  // ----- spikes ----------------------------------------------------------------------------------

  /** Below a bound exactly when the undivided comparison says so, a zero scale included. */
  lemma ScoreBelow(delta: real, scale: real, z: real)
    requires scale >= 0.0 && z > 0.0
    ensures Divide(delta, scale).Below(z) <==> delta < z * scale
  {
    if scale > 0.0 {
      Quotient(delta, scale);
      if delta / scale < z {
        ScaledStrictly(delta / scale, z, scale);
      } else {
        Scaled(z, delta / scale, scale);
      }
    }
  }

  ghost predicate Judgeable(p: SpikeParams, baseline: seq<real>) {
    && p.z > 0.0 && p.minBaseline >= 1 && |baseline| >= p.minBaseline
    && MAD(baseline).Some? && RootAt(MaxReal(MAD(baseline).value.median, 1.0))
  }

  /**
   A spike fires exactly when the change clears its three gates. The first is a product and not a
   quotient, so it also says what happens when history never moved and the scale is zero.
   */
  lemma SpikeFiresExactly(c: Condition, p: SpikeParams, x: real, baseline: seq<real>, out: Outcome)
    requires Judgeable(p, baseline)
    ensures var m, d := MAD(baseline).value.median, MAD(baseline).value.mad;
            var delta := Delta(p, x, m);
            Compared(c, p, x, baseline, out).verdict == True <==>
              && delta >= p.z * Scale(m, d, c.metric.countLike, p.minScale)
              && delta >= p.minDelta
              && ClearsRatio(p, x, m)
  {
    hide MAD, Scale, Divide, Score.Below, ClearsRatio, Delta;
    var m, d := MAD(baseline).value.median, MAD(baseline).value.mad;
    MADIsNotNegative(baseline);
    ScalePositive(m, d, c.metric.countLike, p.minScale);
    ScoreBelow(Delta(p, x, m), Scale(m, d, c.metric.countLike, p.minScale), p.z);
  }

  /**
   An observation equal to its baseline's median is called a spike exactly when nothing holds the
   scale, the change or the proportion away from zero.
   */
  lemma UnchangedFiresExactly(c: Condition, p: SpikeParams, baseline: seq<real>, out: Outcome)
    requires Judgeable(p, baseline) && p.minRatio > 0.0
    ensures var m, d := MAD(baseline).value.median, MAD(baseline).value.mad;
            Compared(c, p, m, baseline, out).verdict == True <==>
              && d == 0.0 && !c.metric.countLike && p.minScale <= 0.0
              && p.minDelta <= 0.0
              && (m <= 0.0 || p.minRatio <= 1.0)
  {
    hide MAD, Scale, ClearsRatio;
    var m, d := MAD(baseline).value.median, MAD(baseline).value.mad;
    var scale := Scale(m, d, c.metric.countLike, p.minScale);
    SpikeFiresExactly(c, p, m, baseline, out);
    MADIsNotNegative(baseline);
    ScalePositive(m, d, c.metric.countLike, p.minScale);
    if scale > 0.0 { PositiveProduct(p.z, scale); }
    RatioAtMedian(p, m);
  }

  lemma RatioAtMedian(p: SpikeParams, m: real)
    requires p.minRatio > 0.0
    ensures ClearsRatio(p, m, m) <==> m <= 0.0 || p.minRatio <= 1.0
  {
    if m > 0.0 {
      if p.minRatio <= 1.0 {
        Scaled(p.minRatio, 1.0, m);
      } else {
        ScaledStrictly(1.0, p.minRatio, m);
      }
    }
  }

  lemma SomeSpread(xs: seq<real>)
    requires xs != []
    ensures MAD(xs).Some?
  {}

  /** A spike in spending as it is asked for when nothing but its direction is given. */
  function SpendingSpike(id: string, scope: FetchKeys.Scope, direction: Direction): Watches.ConditionSpec {
    Watches.ConditionSpec(id, Watches.Plain(Spike(SpikeParams(0, 0, 0, direction, 0.0, 0.0, 0.0, 0, 0, 0.0, 0.0))),
                          Traces, "cost_usd", None, scope, false)
  }

  /** And as it is built, which it always is. */
  function SpendingCondition(id: string, scope: FetchKeys.Scope, direction: Direction, step: nat): Condition
    requires id != ""
  {
    Watches.NewCondition(SpendingSpike(id, scope, direction), step).value
  }

  lemma {:induction false} ZerosKnown(c: Column, lo: int, hi: int)
    requires 0 <= lo <= hi <= |c| && forall i :: lo <= i < hi ==> c[i] == Some(0.0)
    ensures KnownIn(c, lo, hi) == seq(hi - lo, _ => 0.0)
    decreases hi - lo
  {
    if lo < hi { ZerosKnown(c, lo, hi - 1); }
  }

  lemma ZerosRolled(s: Series, i: int)
    requires 0 <= i < |s.values| && s.values[i] == Some(0.0)
    ensures RolledAt(s, Sum, 1, 1, i) == Some(0.0)
  {
    ZerosKnown(s.values, i, i + 1);
    assert KnownIn(s.values, i, i + 1) == [0.0];
    SumSnoc([], 0.0);
    assert [] + [0.0] == [0.0];
  }

  /** Built with every default in force, and given a deployment that has never spent anything, it fires. */
  lemma FlatSpendingFires(id: string, scope: FetchKeys.Scope, direction: Direction, step: nat, now: int, s: Series)
    requires id != "" && WholeMillis(step) && RootAt(1.0)
    requires var c := SpendingCondition(id, scope, direction, step);
             SeriesBuffers.CutOf(s, _ => SeriesBuffers.Reading(Some(0.0), None), c.QueryAt(now).from, c.Span(), step)
    ensures Judge(SpendingCondition(id, scope, direction, step), now, s).verdict == True
  {
    hide MAD, Compared, WindowIndices, RolledAt, KnownIn;
    var c := SpendingCondition(id, scope, direction, step);
    var p := c.params.s;
    forall i | 0 <= i < 32 ensures s.values[i] == Some(0.0) {
      assert SeriesBuffers.Reading(At(s.values, i), At(s.denominator, i)) == SeriesBuffers.Reading(Some(0.0), None);
    }
    Locality.WindowEndsAt(s, c.QueryAt(now).from, 32, now, 1);
    var rolled := Rolled(s, Sum, 1, 1).values;
    forall i | 0 <= i < 32 ensures rolled[i] == Some(0.0) { ZerosRolled(s, i); }
    ZerosKnown(rolled, 0, 30);
    var out := Blank(c).(window := StretchOf(s, 31, 32), observed := Some(0.0), samples := |KnownIn(s.values, 31, 32)|);
    FlatFires(c, p, 30, out);
  }

  lemma FlatFires(c: Condition, p: SpikeParams, n: nat, out: Outcome)
    requires n >= p.minBaseline >= 1 && p.z > 0.0 && p.minRatio > 0.0
    requires !c.metric.countLike && p.minScale <= 0.0 && p.minDelta <= 0.0 && RootAt(1.0)
    ensures Compared(c, p, 0.0, seq(n, _ => 0.0), out).verdict == True
  {
    hide MAD, Compared;
    var baseline := seq(n, _ => 0.0);
    AllInside(baseline, 0.0, 0.0);
    SomeSpread(baseline);
    MADIsRobust(baseline, 0.0, 0.0);
    UnchangedFiresExactly(c, p, baseline, out);
  }

  /** A counting metric under its defaults fires only on a change of at least its floor, and of four units of scale. */
  lemma CountsNeedRealChange(c: Condition, p: SpikeParams, x: real, baseline: seq<real>, out: Outcome)
    requires c.metric.countLike && Judgeable(Watches.SpikeDefaults(p, c.metric), baseline)
    requires Compared(c, Watches.SpikeDefaults(p, c.metric), x, baseline, out).verdict == True
    ensures var q := Watches.SpikeDefaults(p, c.metric);
            var delta := Delta(q, x, MAD(baseline).value.median);
            delta >= q.z && delta >= q.minDelta > 0.0
  {
    hide MAD, Scale, Compared, Delta, ClearsRatio;
    var q := Watches.SpikeDefaults(p, c.metric);
    var m, d := MAD(baseline).value.median, MAD(baseline).value.mad;
    SpikeFiresExactly(c, q, x, baseline, out);
    MADIsNotNegative(baseline);
    ScalePositive(m, d, true, q.minScale);
    Scaled(1.0, Scale(m, d, true, q.minScale), q.z);
  }

  // ----- absences --------------------------------------------------------------------------------

  lemma {:induction false} NoneActive(c: Column, lo: int, hi: int)
    ensures ActiveCount(c, lo, hi) == 0 <==> forall i :: lo <= i < hi ==> !Active(c, i)
    decreases if lo < hi then hi - lo else 0
  {
    if lo < hi {
      NoneActive(c, lo, hi - 1);
    }
  }

  /**
   An absence fires exactly when nothing in its window reported while enough of what came before
   did, so a thing that never reported is never found missing.
   */
  lemma AbsenceFiresExactly(c: Condition, p: AbsenceParams, now: int, s: Series)
    requires Readable(s)
    ensures var w := WindowIndices(s, now, p.forBuckets);
            JudgeAbsence(c, p, now, s).verdict == True <==>
              && w.from < w.to
              && (forall i :: w.from <= i < w.to ==> !Active(s.values, i))
              && ActiveCount(s.values, w.from - p.baselineBuckets, w.from) >= p.minBaseline
  {
    hide WindowIndices, Active;
    var w := WindowIndices(s, now, p.forBuckets);
    NoneActive(s.values, w.from, w.to);
  }

  // ----- the guard band --------------------------------------------------------------------------

  /** The two series differ in nothing but the buckets the observation at obs is made of. */
  ghost predicate DifferOnlyInWindow(s: Series, t: Series, window: int, obs: int) {
    && |s.values| == |t.values|
    && forall i :: i <= obs - window ==>
         At(s.values, i) == At(t.values, i) && At(s.denominator, i) == At(t.denominator, i)
  }

  function BaselineOf(p: SpikeParams, agg: Aggregate, s: Series, obs: int): seq<real> {
    var to := obs - p.guardBuckets;
    KnownIn(Rolled(s, agg, p.windowBuckets, p.minSamples).values, to - p.baselineBuckets, to)
  }

  /** Whatever the buckets under judgement hold, the baseline they are compared with is the same. */
  ghost predicate GuardSeparates(p: SpikeParams) {
    forall agg: Aggregate, s: Series, t: Series, obs: int ::
      DifferOnlyInWindow(s, t, p.windowBuckets, obs) ==> BaselineOf(p, agg, s, obs) == BaselineOf(p, agg, t, obs)
  }

  lemma {:induction false} SamePartsBefore(s: Series, t: Series, lo: int, hi: int)
    requires forall i :: i < hi ==>
               At(s.values, i) == At(t.values, i) && At(s.denominator, i) == At(t.denominator, i)
    ensures RatioParts(s, lo, hi) == RatioParts(t, lo, hi)
    decreases if lo < hi then hi - lo else 0
  {
    if lo < hi {
      SamePartsBefore(s, t, lo, hi - 1);
      assert At(s.values, hi - 1) == At(t.values, hi - 1);
    }
  }

  lemma RolledBeforeAgrees(s: Series, t: Series, agg: Aggregate, window: int, need: int, i: int)
    requires forall k :: k <= i ==>
               At(s.values, k) == At(t.values, k) && At(s.denominator, k) == At(t.denominator, k)
    ensures RolledAt(s, agg, window, need, i) == RolledAt(t, agg, window, need, i)
  {
    hide Reduced, KnownIn, RatioParts;
    var lo := i - AtLeastOne(window) + 1;
    if agg == Ratio {
      SamePartsBefore(s, t, lo, i + 1);
    } else {
      KnownShift(s.values, t.values, lo, i + 1, 0);
    }
  }

  lemma WideGuardSeparates(p: SpikeParams, agg: Aggregate, s: Series, t: Series, obs: int)
    requires p.guardBuckets >= p.windowBuckets - 1 && DifferOnlyInWindow(s, t, p.windowBuckets, obs)
    ensures BaselineOf(p, agg, s, obs) == BaselineOf(p, agg, t, obs)
  {
    hide RolledAt;
    var to := obs - p.guardBuckets;
    var r := Rolled(s, agg, p.windowBuckets, p.minSamples).values;
    var q := Rolled(t, agg, p.windowBuckets, p.minSamples).values;
    forall i | to - p.baselineBuckets <= i < to ensures At(r, i) == At(q, i) {
      RolledBeforeAgrees(s, t, agg, p.windowBuckets, p.minSamples, i);
    }
    KnownShift(r, q, to - p.baselineBuckets, to, 0);
  }

  function FlatSeries(n: nat): Series {
    Series(MIN_STEP, 0, seq(n, _ => Some(0.0)), [], false)
  }

  lemma {:induction false} AllKnown(c: Column, lo: nat, hi: nat)
    requires lo <= hi <= |c| && forall i :: lo <= i < hi ==> c[i].Some?
    ensures |KnownIn(c, lo, hi)| == hi - lo
    ensures forall i :: lo <= i < hi ==> KnownIn(c, lo, hi)[i - lo] == c[i].value
    decreases hi - lo
  {
    if lo < hi { AllKnown(c, lo, hi - 1); }
  }

  lemma RolledMax(s: Series, window: nat, need: int, i: nat, bump: nat, v: real)
    requires 1 <= window <= i + 1 <= |s.values| && need <= window && v >= 0.0
    requires i - window < bump <= i && s.values[bump] == Some(v)
    requires forall k :: 0 <= k < |s.values| && k != bump ==> s.values[k] == Some(0.0)
    ensures RolledAt(s, Max, window, need, i) == Some(v)
  {
    hide KnownIn, Greatest;
    var lo := i - window + 1;
    AllKnown(s.values, lo, i + 1);
    var known := KnownIn(s.values, lo, i + 1);
    forall k | 0 <= k < |known| ensures known[k] == if k == bump - lo then v else 0.0 {
      assert known[k + lo - lo] == s.values[k + lo].value;
    }
    GreatestIs(known, bump - lo, v);
  }

  lemma GreatestIs(xs: seq<real>, at: nat, v: real)
    requires at < |xs| && v >= 0.0 && forall k :: 0 <= k < |xs| ==> xs[k] == if k == at then v else 0.0
    ensures Greatest(xs) == v
  {
    var g := Greatest(xs);
    assert g in xs && xs[at] <= g;
  }

  /** A guard narrower than that leaves the newest baseline bucket inside the window it is compared with. */
  lemma NarrowGuardLeaks(p: SpikeParams) returns (s: Series, t: Series, obs: int)
    requires 0 <= p.guardBuckets < p.windowBuckets - 1 && p.baselineBuckets >= 1 && p.minSamples <= p.windowBuckets
    ensures DifferOnlyInWindow(s, t, p.windowBuckets, obs)
    ensures BaselineOf(p, Max, s, obs) != BaselineOf(p, Max, t, obs)
  {
    hide RolledAt;
    var w := p.windowBuckets;
    obs := w + p.guardBuckets + p.baselineBuckets;
    s := FlatSeries(obs + 1);
    var bump := obs - w + 1;
    t := s.(values := s.values[bump := Some(1.0)]);
    var last := obs - p.guardBuckets - 1;
    RolledMax(s, w, p.minSamples, last, bump, 0.0);
    RolledMax(t, w, p.minSamples, last, bump, 1.0);
    var a := BaselineOf(p, Max, s, obs);
    var b := BaselineOf(p, Max, t, obs);
    assert a[|a| - 1] == 0.0 && b[|b| - 1] == 1.0;
  }

  /** The guard keeps the observation out of its own baseline exactly when it is at least a window less one wide. */
  lemma GuardSeparatesExactly(p: SpikeParams)
    requires p.guardBuckets >= 0 && p.baselineBuckets >= 1 && p.minSamples <= p.windowBuckets
    ensures GuardSeparates(p) <==> p.guardBuckets >= p.windowBuckets - 1
  {
    hide BaselineOf;
    if p.guardBuckets >= p.windowBuckets - 1 {
      forall agg: Aggregate, s: Series, t: Series, obs: int | DifferOnlyInWindow(s, t, p.windowBuckets, obs)
        ensures BaselineOf(p, agg, s, obs) == BaselineOf(p, agg, t, obs)
      {
        WideGuardSeparates(p, agg, s, t, obs);
      }
    } else {
      var s, t, obs := NarrowGuardLeaks(p);
    }
  }
}
