/**
 Evenly spaced, gap-preserving series: columns of bucket values where a gap is unknown and never
 zero, the windows an evaluation may read, and the reductions over a window.
 */
module SeriesGrid {
  import opened Options
  import opened Queries

  const NANOS_PER_MILLI := 1_000_000
  const EVAL_LAG := 90 * NANOS_PER_SECOND
  const MIN_STEP := 30 * NANOS_PER_SECOND
  const MAX_STEP := 3600 * NANOS_PER_SECOND

  /** Integer division as Go performs it, toward zero. */
  function TruncDiv(a: int, b: int): int
    requires b > 0
  {
    if a >= 0 then a / b else -((-a) / b)
  }

  function UnixMilli(t: int): int { t / NANOS_PER_MILLI }

  /** A step every stored watch has: at least one millisecond and a whole number of them. */
  predicate WholeMillis(step: int) {
    step >= NANOS_PER_MILLI && step % NANOS_PER_MILLI == 0
  }

  lemma MilliShift(t: int, k: int, step: int)
    requires WholeMillis(step)
    ensures UnixMilli(t + k * step) == UnixMilli(t) + k * (step / NANOS_PER_MILLI)
  {
    var m := step / NANOS_PER_MILLI;
    assert k * step == (k * m) * NANOS_PER_MILLI;
    MilliAdd(t, k * m);
  }

  lemma MilliAdd(t: int, j: int)
    ensures UnixMilli(t + j * NANOS_PER_MILLI) == UnixMilli(t) + j
  {}

  // ----- columns -------------------------------------------------------------------------------

  /** A column of buckets; None is a bucket nobody knows the value of. */
  type Column = seq<Option<real>>

  /** Reading outside a column is unknown rather than an error. */
  function At(c: Column, i: int): Option<real> {
    if 0 <= i < |c| then c[i] else None
  }

  function KnownIn(c: Column, lo: int, hi: int): (r: seq<real>)
    ensures |r| <= if lo < hi then hi - lo else 0
    decreases if lo < hi then hi - lo else 0
  {
    if lo >= hi then []
    else KnownIn(c, lo, hi - 1) + (match At(c, hi - 1) case Some(v) => [v] case None => [])
  }

  lemma {:induction false} KnownDropLow(c: Column, lo: int, hi: int)
    ensures KnownIn(c, lo, hi) == KnownIn(c, if lo < 0 then 0 else lo, hi)
    decreases if lo < hi then hi - lo else 0
  {
    if lo < 0 && lo < hi {
      KnownDropLow(c, lo, hi - 1);
    }
  }

  lemma {:induction false} KnownDropHigh(c: Column, lo: int, hi: int)
    ensures KnownIn(c, lo, hi) == KnownIn(c, lo, if hi > |c| then |c| else hi)
    decreases if lo < hi then hi - lo else 0
  {
    if hi > |c| && lo < hi {
      KnownDropHigh(c, lo, hi - 1);
    }
  }

  /** What is known of a stretch depends on nothing but the stretch. */
  lemma {:induction false} KnownShift(c: Column, d: Column, lo: int, hi: int, shift: int)
    requires forall i :: lo <= i < hi ==> At(c, i) == At(d, i + shift)
    ensures KnownIn(c, lo, hi) == KnownIn(d, lo + shift, hi + shift)
    decreases if lo < hi then hi - lo else 0
  {
    if lo < hi {
      KnownShift(c, d, lo, hi - 1, shift);
      assert At(c, hi - 1) == At(d, hi - 1 + shift);
    }
  }

  function SumOf(xs: seq<real>): real {
    if xs == [] then 0.0 else SumOf(xs[..|xs| - 1]) + xs[|xs| - 1]
  }

  lemma SumSnoc(xs: seq<real>, v: real)
    ensures SumOf(xs + [v]) == SumOf(xs) + v
  {
    assert (xs + [v])[..|xs|] == xs;
  }

  function Least(xs: seq<real>): (r: real)
    requires xs != []
    ensures r in xs && forall i :: 0 <= i < |xs| ==> r <= xs[i]
  {
    var n := |xs| - 1;
    if n == 0 then xs[0]
    else
      var m := Least(xs[..n]);
      assert forall i :: 0 <= i < n ==> xs[..n][i] == xs[i];
      if xs[n] < m then xs[n] else m
  }

  function Greatest(xs: seq<real>): (r: real)
    requires xs != []
    ensures r in xs && forall i :: 0 <= i < |xs| ==> xs[i] <= r
  {
    var n := |xs| - 1;
    if n == 0 then xs[0]
    else
      var m := Greatest(xs[..n]);
      assert forall i :: 0 <= i < n ==> xs[..n][i] == xs[i];
      if xs[n] > m then xs[n] else m
  }

  datatype ReduceError = NoSamples | NotReducible

  /** One number for a window of known bucket values; a ratio has none that is right. */
  function Reduced(agg: Aggregate, values: seq<real>): Result<real, ReduceError> {
    if values == [] then Failure(NoSamples)
    else match agg
      case Count => Success(SumOf(values))
      case Sum => Success(SumOf(values))
      case Avg => Success(SumOf(values) / |values| as real)
      case Min => Success(Least(values))
      case Max => Success(Greatest(values))
      case P95 => Success(Greatest(values))
      case Ratio => Failure(NotReducible)
  }

  // ----- series --------------------------------------------------------------------------------

  /** On a ratio series the values are numerators and the denominators run beside them. */
  datatype Series = Series(step: int, startMS: int, values: Column, denominator: Column, filled: bool)
  {
    function StepMS(): int
    {
      if step >= 0 then step / NANOS_PER_MILLI else -((-step) / NANOS_PER_MILLI)
    }

    /** When bucket i opened, in nanoseconds. */
    function BucketStart(i: int): int {
      (startMS + i * StepMS()) * NANOS_PER_MILLI
    }

    function IndexOf(t: int): Option<nat>
      requires step <= 0 || StepMS() > 0
    {
      if step <= 0 then None
      else
        var offset := UnixMilli(t) - startMS;
        if offset < 0 then None
        else if offset / StepMS() >= |values| then None
        else Some(offset / StepMS())
    }
  }

  /** The numerators and denominators of a stretch, over the buckets that have both. */
  datatype Parts = Parts(num: real, den: real, seen: nat)

  function RatioParts(s: Series, lo: int, hi: int): Parts
    decreases if lo < hi then hi - lo else 0
  {
    if lo >= hi then Parts(0.0, 0.0, 0)
    else
      var p := RatioParts(s, lo, hi - 1);
      match (At(s.values, hi - 1), At(s.denominator, hi - 1))
      case (Some(n), Some(d)) => Parts(p.num + n, p.den + d, p.seen + 1)
      case _ => p
  }

  lemma {:induction false} PartsDropLow(s: Series, lo: int, hi: int)
    ensures RatioParts(s, lo, hi) == RatioParts(s, if lo < 0 then 0 else lo, hi)
    decreases if lo < hi then hi - lo else 0
  {
    if lo < 0 && lo < hi {
      PartsDropLow(s, lo, hi - 1);
    }
  }

  lemma {:induction false} PartsDropHigh(s: Series, lo: int, hi: int)
    ensures RatioParts(s, lo, hi) == RatioParts(s, lo, if hi > |s.values| then |s.values| else hi)
    decreases if lo < hi then hi - lo else 0
  {
    if hi > |s.values| && lo < hi {
      PartsDropHigh(s, lo, hi - 1);
    }
  }

  function AtLeastOne(n: int): int { if n < 1 then 1 else n }

  /** The statistic of the window that ends with bucket i, or None for want of samples. */
  function RolledAt(s: Series, agg: Aggregate, window: int, minSamples: int, i: int): Option<real> {
    var lo := i - AtLeastOne(window) + 1;
    var need := AtLeastOne(minSamples);
    if agg == Ratio then
      var p := RatioParts(s, lo, i + 1);
      if p.seen < need || p.den == 0.0 then None else Some(p.num / p.den)
    else
      var known := KnownIn(s.values, lo, i + 1);
      if |known| < need then None
      else match Reduced(agg, known) case Success(v) => Some(v) case Failure(_) => None
  }

  function Rolled(s: Series, agg: Aggregate, window: int, minSamples: int): Series {
    Series(s.step, s.startMS,
           seq(|s.values|, i requires 0 <= i < |s.values| => RolledAt(s, agg, window, minSamples, i)), [], s.filled)
  }

  // ----- the loops the arithmetic runs as --------------------------------------------------------

  method Known(s: Series, from: int, to: int) returns (out: seq<real>)
    ensures out == KnownIn(s.values, from, to)
  {
    var lo := if from < 0 then 0 else from;
    var hi := if to > |s.values| then |s.values| else to;
    out := [];
    var i := lo;
    while i < hi
      invariant lo <= i && (i == lo || i <= hi)
      invariant out == KnownIn(s.values, lo, i)
    {
      match At(s.values, i) {
        case Some(v) => out := out + [v];
        case None =>
      }
      i := i + 1;
    }
    KnownDropLow(s.values, from, to);
    KnownDropHigh(s.values, lo, to);
  }

  method SumDenominator(s: Series, from: int, to: int) returns (total: real)
    ensures total == SumOf(KnownIn(s.denominator, from, to))
  {
    var lo := if from < 0 then 0 else from;
    var hi := if to > |s.denominator| then |s.denominator| else to;
    total := 0.0;
    var i := lo;
    while i < hi
      invariant lo <= i && (i == lo || i <= hi)
      invariant total == SumOf(KnownIn(s.denominator, lo, i))
    {
      match At(s.denominator, i) {
        case Some(v) =>
          SumSnoc(KnownIn(s.denominator, lo, i), v);
          total := total + v;
        case None =>
          assert KnownIn(s.denominator, lo, i + 1) == KnownIn(s.denominator, lo, i);
      }
      i := i + 1;
    }
    KnownDropLow(s.denominator, from, to);
    KnownDropHigh(s.denominator, lo, to);
  }

  method Total(values: seq<real>) returns (total: real)
    ensures total == SumOf(values)
  {
    total := 0.0;
    for i := 0 to |values|
      invariant total == SumOf(values[..i])
    {
      assert values[..i + 1][..i] == values[..i];
      total := total + values[i];
    }
    assert values[..|values|] == values;
  }

  method Extreme(values: seq<real>, least: bool) returns (out: real)
    requires values != []
    ensures out == if least then Least(values) else Greatest(values)
  {
    out := values[0];
    assert values[..1] == [values[0]];
    for i := 1 to |values|
      invariant out == if least then Least(values[..i]) else Greatest(values[..i])
    {
      assert values[..i + 1][..i] == values[..i];
      var v := values[i];
      if (least && v < out) || (!least && v > out) {
        out := v;
      }
    }
    assert values[..|values|] == values;
  }

  method Reduce(agg: Aggregate, values: seq<real>) returns (r: Result<real, ReduceError>)
    ensures r == Reduced(agg, values)
  {
    if |values| == 0 {
      return Failure(NoSamples);
    }
    match agg {
      case Count | Sum =>
        var total := Total(values);
        r := Success(total);
      case Avg =>
        var total := Total(values);
        r := Success(total / |values| as real);
      case Min =>
        var out := Extreme(values, true);
        r := Success(out);
      case Max | P95 =>
        var out := Extreme(values, false);
        r := Success(out);
      case Ratio =>
        r := Failure(NotReducible);
    }
  }

  method RollingRatio(s: Series, from: int, to: int, minSamples: int) returns (v: Option<real>)
    ensures var p := RatioParts(s, from, to);
            v == if p.seen < minSamples || p.den == 0.0 then None else Some(p.num / p.den)
  {
    var lo := if from < 0 then 0 else from;
    var hi := if to > |s.values| then |s.values| else to;
    var num, den, seen := 0.0, 0.0, 0;
    var i := lo;
    while i < hi
      invariant lo <= i && (i == lo || i <= hi)
      invariant Parts(num, den, seen) == RatioParts(s, lo, i)
    {
      var n, d := At(s.values, i), At(s.denominator, i);
      if n.Some? && d.Some? {
        num, den, seen := num + n.value, den + d.value, seen + 1;
      }
      i := i + 1;
    }
    PartsDropLow(s, from, to);
    PartsDropHigh(s, lo, to);
    if seen < minSamples || den == 0.0 {
      return None;
    }
    return Some(num / den);
  }

  method Rolling(s: Series, agg: Aggregate, window: int, minSamples: int) returns (out: Series)
    ensures out == Rolled(s, agg, window, minSamples)
  {
    hide KnownIn, RatioParts, Reduced;
    var w, need := AtLeastOne(window), AtLeastOne(minSamples);
    var values := new Option<real>[|s.values|](_ => None);
    for i := 0 to |s.values|
      invariant forall j :: 0 <= j < i ==> values[j] == RolledAt(s, agg, window, minSamples, j)
      invariant forall j :: i <= j < |s.values| ==> values[j] == None
    {
      var from := i - w + 1;
      if agg == Ratio {
        values[i] := RollingRatio(s, from, i + 1, need);
        continue;
      }
      var known := Known(s, from, i + 1);
      if |known| < need {
        continue;
      }
      var r := Reduce(agg, known);
      if r.Failure? {
        continue;
      }
      values[i] := Some(r.value);
    }
    out := Series(s.step, s.startMS, values[..], [], s.filled);
    assert out.values == Rolled(s, agg, window, minSamples).values;
  }

  // ----- windows -------------------------------------------------------------------------------

  /** Boundaries are multiples of the step from the epoch. */
  function AlignDown(t: int, step: int): (r: int)
    ensures step > 0 ==> r % step == 0 && r <= t < r + step
  {
    if step <= 0 then t
    else
      AlignmentFloors(t, step);
      t - t % step
  }

  lemma AlignmentFloors(t: int, step: int)
    requires step > 0
    ensures (t - t % step) % step == 0
  {
    var q := t / step;
    assert t - t % step == step * q;
    MultipleHasNoRemainder(q, step);
  }

  lemma MultipleIsLarge(step: int, k: int)
    requires step > 0
    ensures k >= 1 ==> step * k >= step
    ensures k <= -1 ==> step * k <= -step
  {}

  lemma MultipleHasNoRemainder(q: int, step: int)
    requires step > 0
    ensures (step * q) % step == 0
  {
    var r, p := (step * q) % step, (step * q) / step;
    assert step * q == step * p + r;
    assert r == step * (q - p);
    MultipleIsLarge(step, q - p);
  }

  /** The end of what may be read at now: the last boundary at least the evaluation lag ago. */
  function ReadableEnd(now: int, step: int): int {
    AlignDown(now - EVAL_LAG, step)
  }

  function WindowStart(now: int, step: int, buckets: int): int {
    ReadableEnd(now, step) - AtLeastOne(buckets) * step
  }

  function BucketCount(from: int, to: int, step: int): (n: nat)
  {
    if step <= 0 || to <= from then 0 else (to - from) / step
  }

  lemma BucketCountOfMultiple(from: int, n: nat, step: int)
    requires step > 0
    ensures BucketCount(from, from + n * step, step) == n
  {
    assert n * step >= 0;
    if n > 0 {
      assert n * step >= step;
      MultipleDivides(n, step);
    }
  }

  lemma MultipleDivides(n: int, step: int)
    requires step > 0
    ensures (n * step) / step == n
  {
    var q := (n * step) / step;
    MultipleHasNoRemainder(n, step);
    assert n * step == step * n;
    assert step * n == step * q;
    assert step * (n - q) == 0;
    MultipleIsLarge(step, n - q);
  }

  datatype IndexRange = IndexRange(from: int, to: int)

  /** The evaluation window inside a series, located by time and clamped to what is there. */
  function WindowIndices(s: Series, now: int, buckets: int): IndexRange
    requires s.step <= 0 || s.StepMS() > 0
  {
    if s.step <= 0 || |s.values| == 0 then IndexRange(0, 0)
    else
      var end := ReadableEnd(now, s.step);
      var raw := TruncDiv(UnixMilli(end) - s.startMS, s.StepMS());
      var to := if raw > |s.values| then |s.values| else if raw < 0 then 0 else raw;
      IndexRange(if to - buckets < 0 then 0 else to - buckets, to)
  }
}
