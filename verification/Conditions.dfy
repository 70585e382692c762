/**
 The three kinds of condition: what each one asks for, and how it judges a series that may reach
 further back than it asked.
 */
module Conditions {
  import opened Options
  import opened Verdicts
  import FetchKeys
  import Queries
  import opened SeriesGrid
  import Stats
  import Wilson

  datatype Op = GT | GTE | LT | LTE
  {
    predicate Compare(observed: real, threshold: real) {
      match this
      case GT => observed > threshold
      case GTE => observed >= threshold
      case LT => observed < threshold
      case LTE => observed <= threshold
    }

    predicate Downward() { this == LT || this == LTE }
  }

  datatype Metric = Metric(name: string, aggregates: seq<Queries.Aggregate>, ratio: bool, countLike: bool)

  datatype ThresholdParams = ThresholdParams(
    op: Op, threshold: real, windowBuckets: int, minSamples: int, confidence: real, minDenominator: real)

  datatype Direction = Up | Down

  datatype SpikeParams = SpikeParams(
    windowBuckets: int, baselineBuckets: int, guardBuckets: int, direction: Direction,
    z: real, minDelta: real, minRatio: real,
    minSamples: int, minBaseline: int, minScale: real, minDenominator: real)

  datatype AbsenceParams = AbsenceParams(forBuckets: int, minBaseline: int, baselineBuckets: int)

  datatype Params = Threshold(t: ThresholdParams) | Spike(s: SpikeParams) | Absence(a: AbsenceParams)

  datatype Condition = Condition(
    id: string, source: Queries.Source, metric: Metric, agg: Queries.Aggregate, scope: FetchKeys.Scope, step: nat,
    params: Params)
  {
    /** Every parameter a condition is built with is in force, with the defaults applied. */
    predicate WellFormed() {
      match params
      case Threshold(p) => 1 <= p.minSamples <= p.windowBuckets
      case Spike(p) =>
        && 1 <= p.minSamples <= p.windowBuckets && p.baselineBuckets >= 1 && p.guardBuckets >= 0
        && p.minBaseline >= 1 && p.z > 0.0 && p.minRatio > 0.0
      case Absence(p) => p.forBuckets >= 1 && 1 <= p.minBaseline <= p.baselineBuckets
    }

    /** How far back the condition reads, in buckets. */
    function Span(): int {
      match params
      case Threshold(p) => p.windowBuckets
      case Spike(p) => p.windowBuckets + p.guardBuckets + p.baselineBuckets + p.windowBuckets - 1
      case Absence(p) => p.forBuckets + p.baselineBuckets
    }

    function QueryAt(now: int): Queries.Query {
      Queries.Query(source, metric.name, agg, scope, step, WindowStart(now, step, Span()), ReadableEnd(now, step))
    }
  }

  datatype Reason =
    | NoDataReason | FewSamples | ShortBaseline | SmallDenom | SmallDelta | SmallRatio | BelowZ
    | NeverReported | CoarseData | FetchFailed | ThresholdUnmet | ConditionMet

  /** A quotient as floating point has it: dividing by zero gives an infinity or no number at all. */
  datatype Score = Finite(value: real) | PosInf | NegInf | NotANumber
  {
    /** The comparison `score < bound`, which no comparison with NotANumber satisfies. */
    predicate Below(bound: real) {
      match this
      case Finite(v) => v < bound
      case NegInf => true
      case PosInf => false
      case NotANumber => false
    }
  }

  function Divide(a: real, b: real): Score {
    if b != 0.0 then Finite(a / b)
    else if a > 0.0 then PosInf
    else if a < 0.0 then NegInf
    else NotANumber
  }

  datatype Stretch = Stretch(from: int, to: int)

  datatype Outcome = Outcome(
    conditionID: string, op: Op, threshold: real,
    observed: Option<real>, baseline: Option<real>, score: Option<Score>,
    samples: nat, baselineSamples: nat, denominator: real,
    window: Option<Stretch>, verdict: Truth, noData: bool, reason: Reason, failed: bool)
  {
    function Finish(v: Truth, why: Reason): Outcome {
      this.(verdict := v, reason := why)
    }
  }

  function Blank(c: Condition): Outcome {
    var (op, threshold) :=
      match c.params
      case Threshold(p) => (p.op, p.threshold)
      case Spike(p) => (if p.direction == Down then LT else GT, p.z)
      case Absence(p) => (LTE, 0.0);
    Outcome(c.id, op, threshold, None, None, None, 0, 0, 0.0, None, False, false, NoDataReason, false)
  }

  function Unavailable(c: Condition, why: Reason): Outcome {
    Blank(c).(failed := true).Finish(Unknown, why)
  }

  /** The series conditions are judged over have a usable step. */
  predicate Readable(s: Series) { WholeMillis(s.step) }

  function StretchOf(s: Series, from: int, to: int): Option<Stretch> {
    Some(Stretch(s.BucketStart(from), s.BucketStart(to)))
  }

  // ----- threshold -----------------------------------------------------------------------------

  /** The end of the interval an operator is judged against: the one slower to fire. */
  function Bound(op: Op, successes: real, trials: real, confidence: real): Option<real> {
    match Wilson.Wilson(successes, trials, confidence)
    case None => None
    case Some(i) => Some(if op.Downward() then i.hi else i.lo)
  }

  function RatioVerdict(p: ThresholdParams, numerators: seq<real>, denominator: real, out: Outcome): Outcome {
    var seen := out.(samples := |numerators|);
    if |numerators| == 0 then seen.(noData := true).Finish(Unknown, NoDataReason)
    else if |numerators| < p.minSamples then seen.Finish(Unknown, FewSamples)
    else
      var numerator := SumOf(numerators);
      var measured := seen.(denominator := denominator);
      if denominator == 0.0 then measured.(noData := true).Finish(Unknown, NoDataReason)
      else
        var pointed := measured.(observed := Some(numerator / denominator));
        if denominator < p.minDenominator then pointed.Finish(Unknown, SmallDenom)
        else match Bound(p.op, numerator, denominator, p.confidence)
          case None => pointed.(noData := true).Finish(Unknown, NoDataReason)
          case Some(bound) =>
            var scored := pointed.(score := Some(Finite(bound)));
            if p.op.Compare(bound, p.threshold) then scored.Finish(True, ConditionMet)
            else scored.Finish(False, ThresholdUnmet)
  }

  function PlainVerdict(agg: Queries.Aggregate, p: ThresholdParams, known: seq<real>, out: Outcome): Outcome {
    var seen := out.(samples := |known|);
    if |known| == 0 then seen.(noData := true).Finish(Unknown, NoDataReason)
    else if |known| < p.minSamples then seen.Finish(Unknown, FewSamples)
    else match Reduced(agg, known)
      case Failure(_) => seen.(failed := true).Finish(Unknown, FetchFailed)
      case Success(observed) =>
        var pointed := seen.(observed := Some(observed));
        if p.op.Compare(observed, p.threshold) then pointed.Finish(True, ConditionMet)
        else pointed.Finish(False, ThresholdUnmet)
  }

  function JudgeThreshold(c: Condition, p: ThresholdParams, now: int, s: Series): Outcome
    requires Readable(s)
  {
    var w := WindowIndices(s, now, p.windowBuckets);
    var out := Blank(c).(window := StretchOf(s, w.from, w.to));
    if c.metric.ratio then
      RatioVerdict(p, KnownIn(s.values, w.from, w.to), SumOf(KnownIn(s.denominator, w.from, w.to)), out)
    else PlainVerdict(c.agg, p, KnownIn(s.values, w.from, w.to), out)
  }

  // ----- spike ---------------------------------------------------------------------------------

  predicate ClearsRatio(p: SpikeParams, observed: real, median: real) {
    || median <= 0.0
    || (if p.direction == Down then observed * p.minRatio <= median else observed >= p.minRatio * median)
  }

  function Gate(p: SpikeParams, out: Outcome, z: Score, delta: real, observed: real, median: real): Outcome {
    if z.Below(p.z) then out.Finish(False, BelowZ)
    else if delta < p.minDelta then out.Finish(False, SmallDelta)
    else if !ClearsRatio(p, observed, median) then out.Finish(False, SmallRatio)
    else out.Finish(True, ConditionMet)
  }

  function Delta(p: SpikeParams, observed: real, median: real): real {
    if p.direction == Down then -(observed - median) else observed - median
  }

  /** The judgement itself, once the observation and its baseline are in hand. */
  function Compared(c: Condition, p: SpikeParams, observed: real, baseline: seq<real>, out: Outcome): Outcome {
    var counted := out.(baselineSamples := |baseline|);
    if |baseline| < p.minBaseline || baseline == [] then counted.Finish(Unknown, ShortBaseline)
    else
      var spread := Stats.MAD(baseline).value;
      var scale := Stats.Scale(spread.median, spread.mad, c.metric.countLike, p.minScale);
      var delta := Delta(p, observed, spread.median);
      var z := Divide(delta, scale);
      Gate(p, counted.(baseline := Some(spread.median), score := Some(z)), z, delta, observed, spread.median)
  }

  function JudgeSpike(c: Condition, p: SpikeParams, now: int, s: Series): Outcome
    requires Readable(s)
  {
    var to := WindowIndices(s, now, p.windowBuckets).to;
    if to - 1 < 0 then Blank(c).(noData := true).Finish(Unknown, NoDataReason)
    else SpikeAt(c, p, s, Rolled(s, c.agg, p.windowBuckets, p.minSamples).values, to)
  }

  /** The verdict on the window that ends where bucket `to` begins. */
  function SpikeAt(c: Condition, p: SpikeParams, s: Series, rolled: Column, to: int): Outcome {
    var obs := to - 1;
    var from := obs - p.windowBuckets + 1;
    var out := Blank(c).(window := StretchOf(s, from, to));
    var denominator := SumOf(KnownIn(s.denominator, from, to));
    if c.metric.ratio && denominator < p.minDenominator then
      out.(denominator := denominator).Finish(Unknown, SmallDenom)
    else SpikeFrom(c, p, s, rolled, from, obs, out)
  }

  function SpikeFrom(
      c: Condition, p: SpikeParams, s: Series, rolled: Column, from: int, obs: int, out: Outcome): Outcome
  {
    match At(rolled, obs)
    case None => out.(noData := true).Finish(Unknown, NoDataReason)
    case Some(x) =>
      var baselineTo := obs - p.guardBuckets;
      Compared(c, p, x, KnownIn(rolled, baselineTo - p.baselineBuckets, baselineTo),
               out.(observed := Some(x), samples := |KnownIn(s.values, from, obs + 1)|))
  }

  // ----- absence -------------------------------------------------------------------------------

  predicate Active(c: Column, i: int) {
    At(c, i).Some? && At(c, i).value != 0.0
  }

  function ActiveCount(c: Column, lo: int, hi: int): nat
    decreases if lo < hi then hi - lo else 0
  {
    if lo >= hi then 0 else ActiveCount(c, lo, hi - 1) + if Active(c, hi - 1) then 1 else 0
  }

  lemma {:induction false} ActiveDropLow(c: Column, lo: int, hi: int)
    ensures ActiveCount(c, lo, hi) == ActiveCount(c, if lo < 0 then 0 else lo, hi)
    decreases if lo < hi then hi - lo else 0
  {
    if lo < 0 && lo < hi { ActiveDropLow(c, lo, hi - 1); }
  }

  lemma {:induction false} ActiveShift(c: Column, d: Column, lo: int, hi: int, shift: int)
    requires forall i :: lo <= i < hi ==> At(c, i) == At(d, i + shift)
    ensures ActiveCount(c, lo, hi) == ActiveCount(d, lo + shift, hi + shift)
    decreases if lo < hi then hi - lo else 0
  {
    if lo < hi {
      ActiveShift(c, d, lo, hi - 1, shift);
      assert At(c, hi - 1) == At(d, hi - 1 + shift);
    }
  }

  function JudgeAbsence(c: Condition, p: AbsenceParams, now: int, s: Series): Outcome
    requires Readable(s)
  {
    var w := WindowIndices(s, now, p.forBuckets);
    var out := Blank(c).(window := StretchOf(s, w.from, w.to));
    if w.to <= w.from then out.(noData := true).Finish(Unknown, NoDataReason)
    else
      var silent := out.(observed := Some(0.0), samples := w.to - w.from);
      if ActiveCount(s.values, w.from, w.to) > 0 then silent.Finish(False, ThresholdUnmet)
      else
        var reported := ActiveCount(s.values, w.from - p.baselineBuckets, w.from);
        var counted := silent.(baselineSamples := reported);
        if reported < p.minBaseline then counted.Finish(False, NeverReported)
        else counted.Finish(True, ConditionMet)
  }

  function Judge(c: Condition, now: int, s: Series): Outcome
    requires Readable(s)
  {
    match c.params
    case Threshold(p) => JudgeThreshold(c, p, now, s)
    case Spike(p) => JudgeSpike(c, p, now, s)
    case Absence(p) => JudgeAbsence(c, p, now, s)
  }

  // ----- the evaluations as they run -------------------------------------------------------------

  method EvaluateThreshold(c: Condition, now: int, s: Series) returns (out: Outcome)
    requires c.params.Threshold? && Readable(s)
    ensures out == Judge(c, now, s)
  {
    var p := c.params.t;
    var w := WindowIndices(s, now, p.windowBuckets);
    out := Blank(c).(window := StretchOf(s, w.from, w.to));
    var known := Known(s, w.from, w.to);
    out := out.(samples := |known|);
    if |known| == 0 {
      return out.(noData := true).Finish(Unknown, NoDataReason);
    }
    if |known| < p.minSamples {
      return out.Finish(Unknown, FewSamples);
    }
    if c.metric.ratio {
      var numerator := Total(known);
      var denominator := SumDenominator(s, w.from, w.to);
      out := out.(denominator := denominator);
      if denominator == 0.0 {
        return out.(noData := true).Finish(Unknown, NoDataReason);
      }
      out := out.(observed := Some(numerator / denominator));
      if denominator < p.minDenominator {
        return out.Finish(Unknown, SmallDenom);
      }
      var bound := Bound(p.op, numerator, denominator, p.confidence);
      if bound.None? {
        return out.(noData := true).Finish(Unknown, NoDataReason);
      }
      out := out.(score := Some(Finite(bound.value)));
      if p.op.Compare(bound.value, p.threshold) {
        return out.Finish(True, ConditionMet);
      }
      return out.Finish(False, ThresholdUnmet);
    }
    var observed := Reduce(c.agg, known);
    if observed.Failure? {
      return out.(failed := true).Finish(Unknown, FetchFailed);
    }
    out := out.(observed := Some(observed.value));
    if p.op.Compare(observed.value, p.threshold) {
      return out.Finish(True, ConditionMet);
    }
    return out.Finish(False, ThresholdUnmet);
  }

  method CompareToBaseline(c: Condition, p: SpikeParams, x: real, baseline: seq<real>, start: Outcome)
    returns (out: Outcome)
    requires p.minBaseline >= 1
    ensures out == Compared(c, p, x, baseline, start)
  {
    hide Stats.MAD, Stats.Scale, Gate;
    out := start.(baselineSamples := |baseline|);
    if |baseline| < p.minBaseline {
      return out.Finish(Unknown, ShortBaseline);
    }
    var spread := Stats.ComputeMAD(baseline);
    var median := spread.value.median;
    var scale := Stats.Scale(median, spread.value.mad, c.metric.countLike, p.minScale);
    var delta := x - median;
    if p.direction == Down {
      delta := -delta;
    }
    var z := Divide(delta, scale);
    return Gate(p, out.(baseline := Some(median), score := Some(z)), z, delta, x, median);
  }

  method ObserveSpike(c: Condition, p: SpikeParams, s: Series, rolled: Series, from: int, obs: int, start: Outcome)
    returns (out: Outcome)
    requires p.minBaseline >= 1
    ensures out == SpikeFrom(c, p, s, rolled.values, from, obs, start)
  {
    hide Compared;
    var x := At(rolled.values, obs);
    if x.None? {
      return start.(noData := true).Finish(Unknown, NoDataReason);
    }
    var known := Known(s, from, obs + 1);
    var baselineTo := obs - p.guardBuckets;
    var baseline := Known(rolled, baselineTo - p.baselineBuckets, baselineTo);
    out := CompareToBaseline(c, p, x.value, baseline, start.(observed := x, samples := |known|));
  }

  method EvaluateSpike(c: Condition, now: int, s: Series) returns (out: Outcome)
    requires c.params.Spike? && c.WellFormed() && Readable(s)
    ensures out == Judge(c, now, s)
  {
    hide SpikeFrom, KnownIn, Rolled;
    var p := c.params.s;
    var rolled := Rolling(s, c.agg, p.windowBuckets, p.minSamples);
    var to := WindowIndices(s, now, p.windowBuckets).to;
    var obs := to - 1;
    if obs < 0 {
      return Blank(c).(noData := true).Finish(Unknown, NoDataReason);
    }
    var from := obs - p.windowBuckets + 1;
    out := Blank(c).(window := StretchOf(s, from, to));
    if c.metric.ratio {
      var denominator := SumDenominator(s, from, to);
      if denominator < p.minDenominator {
        return out.(denominator := denominator).Finish(Unknown, SmallDenom);
      }
    }
    out := ObserveSpike(c, p, s, rolled, from, obs, out);
  }

  method EvaluateAbsence(c: Condition, now: int, s: Series) returns (out: Outcome)
    requires c.params.Absence? && Readable(s)
    ensures out == Judge(c, now, s)
  {
    var p := c.params.a;
    var w := WindowIndices(s, now, p.forBuckets);
    out := Blank(c).(window := StretchOf(s, w.from, w.to));
    if w.to <= w.from {
      return out.(noData := true).Finish(Unknown, NoDataReason);
    }
    out := out.(observed := Some(0.0), samples := w.to - w.from);
    for i := w.from to w.to
      invariant ActiveCount(s.values, w.from, i) == 0
    {
      if Active(s.values, i) {
        ActiveCountGrows(s.values, w.from, i + 1, w.to);
        return out.Finish(False, ThresholdUnmet);
      }
    }
    var lo := if w.from - p.baselineBuckets < 0 then 0 else w.from - p.baselineBuckets;
    var reported := 0;
    var i := lo;
    while i < w.from
      invariant lo <= i && (i == lo || i <= w.from)
      invariant reported == ActiveCount(s.values, lo, i)
    {
      if Active(s.values, i) {
        reported := reported + 1;
      }
      i := i + 1;
    }
    ActiveDropLow(s.values, w.from - p.baselineBuckets, w.from);
    out := out.(baselineSamples := reported);
    if reported < p.minBaseline {
      return out.Finish(False, NeverReported);
    }
    return out.Finish(True, ConditionMet);
  }

  lemma {:induction false} ActiveCountGrows(c: Column, lo: int, mid: int, hi: int)
    requires mid <= hi
    ensures ActiveCount(c, lo, mid) <= ActiveCount(c, lo, hi)
    decreases hi - mid
  {
    if mid < hi { ActiveCountGrows(c, lo, mid, hi - 1); }
  }

  method Evaluate(c: Condition, now: int, s: Series) returns (out: Outcome)
    requires c.WellFormed() && Readable(s)
    ensures out == Judge(c, now, s)
  {
    match c.params {
      case Threshold(_) => out := EvaluateThreshold(c, now, s);
      case Spike(_) => out := EvaluateSpike(c, now, s);
      case Absence(_) => out := EvaluateAbsence(c, now, s);
    }
  }
}
