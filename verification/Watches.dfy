/**
 A watch as it is stored, and the building of it: validation and construction in one, so that a
 definition which cannot produce working conditions is refused whole.
 */
module Watches {
  import opened Options
  import Verdicts
  import FetchKeys
  import opened Queries
  import SeriesGrid
  import opened Conditions

  const MAX_CONDITIONS := 10
  const MIN_INTERVAL := SeriesGrid.MIN_STEP
  const MAX_INTERVAL := 3600 * NANOS_PER_SECOND

  const DEFAULT_THRESHOLD_WINDOW := 5
  const DEFAULT_MIN_DENOMINATOR := 20.0
  const DEFAULT_CONFIDENCE := 0.95
  const DEFAULT_SPIKE_WINDOW := 1
  const DEFAULT_GUARD_BUCKETS := 1
  const DEFAULT_BASELINE := 30
  const DEFAULT_Z := 4.0
  const DEFAULT_MIN_RATIO := 2.0
  const DEFAULT_MIN_BASELINE := 12
  const DEFAULT_COUNT_MIN_DELTA := 5.0
  const DEFAULT_ABSENCE_FOR := 5

  /** A kind's decoded parameters, or why there are none. */
  datatype Body = Plain(params: Params) | Group | UnknownKind | Undecodable

  datatype ConditionSpec = ConditionSpec(
    id: string, body: Body, source: Source, metric: string, aggregate: Option<Aggregate>, scope: FetchKeys.Scope,
    nested: bool)

  datatype Watch = Watch(
    id: string, combinator: Verdicts.Combinator, conditions: seq<ConditionSpec>, onNoData: Verdicts.NoDataPolicy,
    step: int, interval: int, hold: int, cooldown: int, definitionHash: string)
  {
    /** How many consecutive firing evaluations the hold amounts to: the hold over the interval, rounded up. */
    function HoldEvaluations(): (n: int)
      ensures n >= 1
      ensures hold > 0 && interval > 0 ==> (n - 1) * interval < hold <= n * interval
    {
      if hold <= 0 || interval <= 0 then 1
      else
        var n := (hold + interval - 1) / interval;
        RoundsUp(hold, interval);
        if n < 1 then 1 else n
    }
  }

  lemma RoundsUp(a: int, b: int)
    requires a > 0 && b > 0
    ensures var n := (a + b - 1) / b; n >= 1 && (n - 1) * b < a <= n * b
  {
    var n, r := (a + b - 1) / b, (a + b - 1) % b;
    assert a + b - 1 == b * n + r;
    assert n * b == b * n && (n - 1) * b == b * n - b;
    SeriesGrid.MultipleIsLarge(b, n);
  }

  datatype BuildError = InvalidParams | NestedConditions | UnknownMetric | UnknownCondition | InvalidWatch

  // ----- the metric catalogue --------------------------------------------------------------------

  function CountMetric(name: string, agg: Aggregate): Metric { Metric(name, [agg], false, true) }

  function LookupMetric(source: Source, name: string): Option<Metric> {
    match source
    case Traces =>
      if name == "traces" || name == "failed_traces" then Some(CountMetric(name, Count))
      else if name == "error_rate" then Some(Metric(name, [Ratio], true, false))
      else if name == "duration_ns" then Some(Metric(name, [P95, Avg, Max], false, false))
      else if name == "cost_usd" then Some(Metric(name, [Sum], false, false))
      else if name == "tokens" || name == "llm_calls" || name == "unpriced_calls" then Some(CountMetric(name, Sum))
      else None
    case Logs =>
      if name == "events" then Some(CountMetric(name, Count))
      else if name == "error_rate" then Some(Metric(name, [Ratio], true, false))
      else None
    case PodStats =>
      if name == "" then None
      else Some(Metric(name, [Max, Avg, Sum, Min], false, HasSuffix(name, "_total")))
  }

  predicate HasSuffix(s: string, suffix: string) {
    |s| >= |suffix| && s[|s| - |suffix|..] == suffix
  }

  // ----- parameters and their defaults -----------------------------------------------------------

  function OrElse(n: int, fallback: int): int { if n <= 0 then fallback else n }

  function OrElseReal(x: real, fallback: real): real { if x <= 0.0 then fallback else x }

  function ThresholdDefaults(p: ThresholdParams, m: Metric): ThresholdParams {
    var w := OrElse(p.windowBuckets, DEFAULT_THRESHOLD_WINDOW);
    var q := p.(windowBuckets := w, minSamples := OrElse(p.minSamples, (w + 1) / 2));
    if m.ratio then
      q.(confidence := OrElseReal(p.confidence, DEFAULT_CONFIDENCE),
         minDenominator := OrElseReal(p.minDenominator, DEFAULT_MIN_DENOMINATOR))
    else q
  }

  function SpikeDefaults(p: SpikeParams, m: Metric): SpikeParams {
    p.(windowBuckets := OrElse(p.windowBuckets, DEFAULT_SPIKE_WINDOW),
       baselineBuckets := OrElse(p.baselineBuckets, DEFAULT_BASELINE),
       guardBuckets := if p.guardBuckets < 0 then 0 else if p.guardBuckets == 0 then DEFAULT_GUARD_BUCKETS
                       else p.guardBuckets,
       z := OrElseReal(p.z, DEFAULT_Z),
       minRatio := OrElseReal(p.minRatio, DEFAULT_MIN_RATIO),
       minSamples := OrElse(p.minSamples, 1),
       minBaseline := OrElse(p.minBaseline, DEFAULT_MIN_BASELINE),
       minDelta := if p.minDelta <= 0.0 && m.countLike then DEFAULT_COUNT_MIN_DELTA else p.minDelta,
       minDenominator := if m.ratio && p.minDenominator <= 0.0 then DEFAULT_MIN_DENOMINATOR else p.minDenominator)
  }

  function AbsenceDefaults(p: AbsenceParams): AbsenceParams {
    AbsenceParams(OrElse(p.forBuckets, DEFAULT_ABSENCE_FOR), OrElse(p.minBaseline, DEFAULT_MIN_BASELINE),
                  OrElse(p.baselineBuckets, DEFAULT_BASELINE))
  }

  function BuildParams(p: Params, m: Metric): Result<Params, BuildError> {
    match p
    case Threshold(t) =>
      var q := ThresholdDefaults(t, m);
      if q.minSamples > q.windowBuckets then Failure(InvalidParams) else Success(Threshold(q))
    case Spike(s) =>
      var q := SpikeDefaults(s, m);
      if q.minSamples > q.windowBuckets then Failure(InvalidParams) else Success(Spike(q))
    case Absence(a) =>
      var q := AbsenceDefaults(a);
      if q.minBaseline > q.baselineBuckets then Failure(InvalidParams) else Success(Absence(q))
  }

  /** Whatever is built has every default in force, reduces the way its metric allows, and keeps its step. */
  function NewCondition(spec: ConditionSpec, step: nat): (r: Result<Condition, BuildError>)
    ensures r.Success? ==>
              && r.value.WellFormed() && r.value.step == step && r.value.id == spec.id
              && r.value.agg in r.value.metric.aggregates
              && (r.value.metric.ratio <==> r.value.agg == Ratio)
  {
    if spec.id == "" then Failure(InvalidParams)
    else if spec.body.Group? || spec.nested then Failure(NestedConditions)
    else match LookupMetric(spec.source, spec.metric)
      case None => Failure(UnknownMetric)
      case Some(m) =>
        var agg := if spec.aggregate.Some? then spec.aggregate.value else m.aggregates[0];
        if agg !in m.aggregates then Failure(InvalidParams)
        else match spec.body
          case UnknownKind => Failure(UnknownCondition)
          case Group => Failure(NestedConditions)
          case Undecodable => Failure(InvalidParams)
          case Plain(params) =>
            match BuildParams(params, m)
            case Failure(e) => Failure(e)
            case Success(p) => Success(Condition(spec.id, spec.source, m, agg, spec.scope, step, p))
  }

  /** The checks a definition passes before any condition is looked at. */
  predicate Validates(w: Watch) {
    && w.combinator != Verdicts.Unrecognised
    && 1 <= |w.conditions| <= MAX_CONDITIONS
    && SeriesGrid.MIN_STEP <= w.step <= SeriesGrid.MAX_STEP
    && MIN_INTERVAL <= w.interval <= MAX_INTERVAL
    && w.hold >= 0 && w.cooldown >= 0
  }

  datatype Built = Built(watch: Watch, conditions: seq<Condition>)

  predicate Buildable(w: Watch) {
    && Validates(w)
    && (forall i, j :: 0 <= i < j < |w.conditions| ==> w.conditions[i].id != w.conditions[j].id)
    && (forall i :: 0 <= i < |w.conditions| ==> NewCondition(w.conditions[i], w.step).Success?)
  }

  /** The conditions of a built watch are its own, in order, none skipped. */
  ghost predicate BuiltFrom(b: Built, w: Watch) {
    && b.watch == w && Validates(w) && |b.conditions| == |w.conditions|
    && forall i :: 0 <= i < |w.conditions| ==> NewCondition(w.conditions[i], w.step) == Success(b.conditions[i])
  }

  method Build(w: Watch) returns (r: Result<Built, BuildError>)
    ensures r.Success? <==> Buildable(w)
    ensures r.Success? ==> BuiltFrom(r.value, w)
  {
    hide NewCondition;
    if !Validates(w) {
      return Failure(InvalidWatch);
    }
    var built, seen := [], {};
    for i := 0 to |w.conditions|
      invariant |built| == i
      invariant seen == set j | 0 <= j < i :: w.conditions[j].id
      invariant forall j, k :: 0 <= j < k < i ==> w.conditions[j].id != w.conditions[k].id
      invariant forall j :: 0 <= j < i ==> NewCondition(w.conditions[j], w.step) == Success(built[j])
    {
      var spec := w.conditions[i];
      if spec.id in seen {
        return Failure(InvalidWatch);
      }
      seen := seen + {spec.id};
      var c := NewCondition(spec, w.step);
      if c.Failure? {
        return Failure(c.error);
      }
      built := built + [c.value];
    }
    return Success(Built(w, built));
  }
}
