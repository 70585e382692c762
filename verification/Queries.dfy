/**
 Fetches as values. A query's key is everything it selects and nothing of its span, so that two
 conditions reading the same rows over different stretches of time can be served together.
 */
module Queries {
  import opened FetchKeys

  const NANOS_PER_SECOND := 1_000_000_000

  /** The closed vocabularies: a condition naming any other source or aggregate is refused when built. */
  datatype Source = Traces | Logs | PodStats
  datatype Aggregate = Count | Sum | Avg | Min | Max | P95 | Ratio
  {
    /** Zero-fill only where the absence of a row is itself an observation. */
    predicate FillsZero(src: Source) {
      src != PodStats && (this == Count || this == Sum)
    }
  }

  function SourceName(s: Source): string {
    match s
    case Traces => "traces"
    case Logs => "logs"
    case PodStats => "pod_stats"
  }

  function AggregateName(a: Aggregate): string {
    match a
    case Count => "count"
    case Sum => "sum"
    case Avg => "avg"
    case Min => "min"
    case Max => "max"
    case P95 => "p95"
    case Ratio => "ratio"
  }

  // ----- Go's rendering of a duration ----------------------------------------------------------

  function Decimal(n: nat): string {
    if n < 10 then [HexDigit(n)] else Decimal(n / 10) + [HexDigit(n % 10)]
  }

  predicate IsDigit(c: char) { '0' <= c <= '9' }

  lemma {:induction false} DecimalIsDigits(n: nat)
    ensures Decimal(n) != "" && forall i :: 0 <= i < |Decimal(n)| ==> IsDigit(Decimal(n)[i])
  {
    if n >= 10 { DecimalIsDigits(n / 10); }
  }

  lemma {:induction false} DecimalInjective(n: nat, m: nat)
    requires Decimal(n) == Decimal(m)
    ensures n == m
  {
    if n >= 10 {
      DecimalIsDigits(n / 10);
      assert m >= 10;
      LastDigitCancels(Decimal(n / 10), HexDigit(n % 10), Decimal(m / 10), HexDigit(m % 10));
      HexDigitInjective(n % 10, m % 10);
      DecimalInjective(n / 10, m / 10);
    } else if m >= 10 {
      DecimalIsDigits(m / 10);
    } else {
      HexDigitInjective(n, m);
    }
  }

  lemma LastDigitCancels(x: string, a: char, y: string, b: char)
    requires x + [a] == y + [b]
    ensures x == y && a == b
  {
    assert (x + [a])[|x|] == a && (y + [b])[|y|] == b;
    assert (x + [a])[..|x|] == x && (y + [b])[..|y|] == y;
  }

  /** A number ends where its digits do, so it can be read back off the front of a text. */
  lemma DecimalCancels(n: nat, m: nat, x: string, y: string)
    requires x != "" && !IsDigit(x[0]) && y != "" && !IsDigit(y[0])
    requires Decimal(n) + x == Decimal(m) + y
    ensures n == m && x == y
  {
    var a, b := |Decimal(n)|, |Decimal(m)|;
    DecimalIsDigits(n);
    DecimalIsDigits(m);
    var l, r := Decimal(n) + x, Decimal(m) + y;
    assert (forall i :: 0 <= i < a ==> IsDigit(l[i])) && !IsDigit(l[a]);
    assert (forall i :: 0 <= i < b ==> IsDigit(r[i])) && !IsDigit(r[b]);
    assert l[..a] == Decimal(n) && r[..b] == Decimal(m);
    CancelPrefix(Decimal(n), x, y);
    DecimalInjective(n, m);
  }

  /** A power of ten, or the zero below the last of them. */
  predicate Place(p: nat) { p <= 1 || (p % 10 == 0 && Place(p / 10)) }

  lemma DivisionStep(f: nat, p: nat)
    requires p > 0 && f < 10 * p
    ensures f / p < 10 && f % p < p
  {}

  /** The digits of frac from the place p down, without trailing zeros. */
  function FracDigits(frac: nat, p: nat): (r: string)
    requires Place(p) && (frac == 0 || frac < 10 * p)
    ensures NUL !in r && (r == "" <==> frac == 0) && (r != "" ==> IsDigit(r[0]))
  {
    if frac == 0 then ""
    else
      DivisionStep(frac, p);
      [HexDigit(frac / p)] + FracDigits(frac % p, p / 10)
  }

  lemma CancelHead(a: char, b: char, x: string, y: string)
    requires [a] + x == [b] + y
    ensures a == b && x == y
  {
    assert ([a] + x)[0] == a && ([b] + y)[0] == b;
    CancelPrefix([a], x, y);
  }

  lemma CancelSuffix(x: string, y: string, a: string)
    requires x + a == y + a
    ensures x == y
  {
    assert |x| == |y|;
    assert (x + a)[..|x|] == x && (y + a)[..|y|] == y;
  }

  lemma DivisionRecovers(f: nat, g: nat, p: nat)
    requires p > 0 && f / p == g / p && f % p == g % p
    ensures f == g
  {
    assert f == p * (f / p) + f % p && g == p * (g / p) + g % p;
  }

  lemma SplitAt(f: nat, p: nat) returns (a: nat, rest: nat)
    requires p > 0 && f < 10 * p
    ensures a == f / p && rest == f % p && f == p * a + rest && a < 10 && rest < p
  {
    DivisionStep(f, p);
    a, rest := f / p, f % p;
  }

  lemma PlaceBelow(p: nat, rest: nat)
    requires Place(p) && rest < p
    ensures rest == 0 || rest < 10 * (p / 10)
  {}

  lemma FracDigitsUnfold(f: nat, p: nat) returns (a: nat, rest: nat)
    requires Place(p) && 0 < f < 10 * p
    ensures a < 10 && (rest == 0 || rest < 10 * (p / 10)) && f == p * a + rest
    ensures FracDigits(f, p) == [HexDigit(a)] + FracDigits(rest, p / 10)
  {
    a, rest := SplitAt(f, p);
    PlaceBelow(p, rest);
  }

  lemma HexDigitInjective(a: nat, b: nat)
    requires a < 16 && b < 16 && HexDigit(a) == HexDigit(b)
    ensures a == b
  {}

  lemma {:induction false} FracDigitsCancel(f: nat, g: nat, p: nat)
    requires Place(p) && (f == 0 || f < 10 * p) && (g == 0 || g < 10 * p)
    requires FracDigits(f, p) == FracDigits(g, p)
    ensures f == g
    decreases p, 0
  {
    if f != 0 {
      var a, x := FracDigitsUnfold(f, p);
      var b, y := FracDigitsUnfold(g, p);
      FracDigitsStep(a, b, x, y, p);
    }
  }

  lemma {:induction false} FracDigitsStep(a: nat, b: nat, f: nat, g: nat, p: nat)
    requires p > 0 && Place(p) && a < 10 && b < 10
    requires (f == 0 || f < 10 * (p / 10)) && (g == 0 || g < 10 * (p / 10))
    requires [HexDigit(a)] + FracDigits(f, p / 10) == [HexDigit(b)] + FracDigits(g, p / 10)
    ensures a == b && f == g
    decreases p / 10, 1
  {
    CancelHead(HexDigit(a), HexDigit(b), FracDigits(f, p / 10), FracDigits(g, p / 10));
    HexDigitInjective(a, b);
    FracDigitsCancel(f, g, p / 10);
  }

  const TENTHS := 100_000_000

  lemma TenthsIsAPlace()
    ensures Place(TENTHS)
  {
    assert Place(1_000);
    assert Place(1_000_000);
  }

  function FracText(frac: nat): string
    requires frac < NANOS_PER_SECOND
  {
    TenthsIsAPlace();
    if frac == 0 then "" else "." + FracDigits(frac, TENTHS)
  }

  /** time.Duration.String for a duration of at least one second, which every permitted step is. */
  function DurationText(d: nat): string
    requires d >= NANOS_PER_SECOND
  {
    HoursText(d / NANOS_PER_SECOND, FracText(d % NANOS_PER_SECOND) + "s")
  }

  /** Hours and minutes are left out while they are zero; seconds never are. */
  function HoursText(seconds: nat, end: string): string {
    var hours := seconds / 3600;
    if hours > 0 then Decimal(hours) + ("h" + MinutesText(seconds % 3600, end))
    else if seconds >= 60 then MinutesText(seconds, end)
    else Decimal(seconds) + end
  }

  function MinutesText(seconds: nat, end: string): string {
    Decimal(seconds / 60) + ("m" + (Decimal(seconds % 60) + end))
  }

  lemma MinutesCancel(s: nat, t: nat, x: string, y: string)
    requires x != "" && !IsDigit(x[0]) && y != "" && !IsDigit(y[0])
    requires MinutesText(s, x) == MinutesText(t, y)
    ensures s == t && x == y
  {
    var l, r := Decimal(s % 60) + x, Decimal(t % 60) + y;
    assert ("m" + l)[0] == 'm' && ("m" + r)[0] == 'm';
    DecimalCancels(s / 60, t / 60, "m" + l, "m" + r);
    CancelPrefix("m", l, r);
    DecimalCancels(s % 60, t % 60, x, y);
    DivisionRecovers(s, t, 60);
  }

  /** How an hours text continues after its first number: 'h', 'm', or its end. */
  lemma HoursTextHead(s: nat, x: string) returns (n: nat, rest: string)
    requires x != "" && !IsDigit(x[0]) && x[0] != 'h' && x[0] != 'm'
    ensures HoursText(s, x) == Decimal(n) + rest && rest != "" && !IsDigit(rest[0])
    ensures s >= 3600 <==> rest[0] == 'h'
    ensures 60 <= s < 3600 <==> rest[0] == 'm'
    ensures s >= 3600 ==> n == s / 3600 && rest == "h" + MinutesText(s % 3600, x)
    ensures s < 60 ==> n == s && rest == x
  {
    if s >= 3600 {
      n, rest := s / 3600, "h" + MinutesText(s % 3600, x);
    } else if s >= 60 {
      n, rest := s / 60, "m" + (Decimal(s % 60) + x);
    } else {
      n, rest := s, x;
    }
  }

  lemma HoursCancel(s: nat, t: nat, x: string, y: string)
    requires x != "" && !IsDigit(x[0]) && x[0] != 'h' && x[0] != 'm'
    requires y != "" && !IsDigit(y[0]) && y[0] != 'h' && y[0] != 'm'
    requires HoursText(s, x) == HoursText(t, y)
    ensures s == t && x == y
  {
    var n, p := HoursTextHead(s, x);
    var m, q := HoursTextHead(t, y);
    DecimalCancels(n, m, p, q);
    if s >= 3600 {
      CancelPrefix("h", MinutesText(s % 3600, x), MinutesText(t % 3600, y));
      MinutesCancel(s % 3600, t % 3600, x, y);
      DivisionRecovers(s, t, 3600);
    } else if s >= 60 {
      MinutesCancel(s, t, x, y);
    }
  }

  lemma DurationTextInjective(d: nat, e: nat)
    requires d >= NANOS_PER_SECOND && e >= NANOS_PER_SECOND
    requires DurationText(d) == DurationText(e)
    ensures d == e
  {
    var f, g := d % NANOS_PER_SECOND, e % NANOS_PER_SECOND;
    var x, y := FracText(f) + "s", FracText(g) + "s";
    HoursCancel(d / NANOS_PER_SECOND, e / NANOS_PER_SECOND, x, y);
    assert x[0] == 's' <==> f == 0;
    assert y[0] == 's' <==> g == 0;
    if f != 0 {
      TenthsIsAPlace();
      CancelSuffix(FracText(f), FracText(g), "s");
      CancelPrefix(".", FracDigits(f, TENTHS), FracDigits(g, TENTHS));
      FracDigitsCancel(f, g, TENTHS);
    }
    DivisionRecovers(d, e, NANOS_PER_SECOND);
  }

  lemma DecimalHasNoNul(n: nat)
    ensures NUL !in Decimal(n)
  {
    DecimalIsDigits(n);
  }

  lemma MinutesTextHasNoNul(s: nat, end: string)
    requires NUL !in end
    ensures NUL !in MinutesText(s, end)
  {
    DecimalHasNoNul(s / 60);
    DecimalHasNoNul(s % 60);
  }

  lemma HoursTextHasNoNul(s: nat, end: string)
    requires NUL !in end
    ensures NUL !in HoursText(s, end)
  {
    DecimalHasNoNul(s / 3600);
    DecimalHasNoNul(s);
    MinutesTextHasNoNul(s % 3600, end);
    MinutesTextHasNoNul(s, end);
  }

  lemma DurationTextHasNoNul(d: nat)
    requires d >= NANOS_PER_SECOND
    ensures NUL !in DurationText(d)
  {
    var f := d % NANOS_PER_SECOND;
    assert NUL !in FracText(f);
    HoursTextHasNoNul(d / NANOS_PER_SECOND, FracText(f) + "s");
  }

  // ----- queries -------------------------------------------------------------------------------

  datatype Query = Query(
    source: Source, metric: string, aggregate: Aggregate, scope: Scope,
    step: nat, from: int, to: int)
  {
    ghost function Key(): string
      requires step >= NANOS_PER_SECOND
    {
      SourceName(source) + ([NUL] + KeyAfterSource(metric, aggregate, DurationText(step), ScopeKey(scope)))
    }

    /** What a fetch reads, apart from how far back: the order of a scope's lists is not part of it. */
    function Selected(): Selection {
      Selection(source, metric, aggregate, step, RowsOf(scope))
    }

    /** The query covering both spans. */
    function Widen(other: Query): Query {
      this.(from := if other.from < from then other.from else from,
            to := if other.to > to then other.to else to)
    }
  }

  function KeyAfterSource(metric: string, aggregate: Aggregate, step: string, scope: string): string {
    metric + ([NUL] + (AggregateName(aggregate) + ([NUL] + (step + ([NUL] + scope)))))
  }

  datatype Selection = Selection(source: Source, metric: string, aggregate: Aggregate, step: nat, rows: Rows)

  /** Two texts cut at their first NUL. */
  lemma CutFirst(a: string, b: string, x: string, y: string)
    requires NUL !in a && NUL !in b
    requires a + ([NUL] + x) == b + ([NUL] + y)
    ensures a == b && x == y
  {
    var l, r := a + ([NUL] + x), b + ([NUL] + y);
    assert l[|a|] == NUL && r[|b|] == NUL;
    assert forall i :: 0 <= i < |a| ==> l[i] == a[i];
    assert forall i :: 0 <= i < |b| ==> r[i] == b[i];
    assert l[..|a|] == a && r[..|b|] == b;
    assert l[|a| + 1..] == x && r[|b| + 1..] == y;
  }

  /** Two texts cut at their last NUL. */
  lemma CutLast(a: string, b: string, x: string, y: string)
    requires NUL !in x && NUL !in y
    requires a + ([NUL] + x) == b + ([NUL] + y)
    ensures a == b && x == y
  {
    var l, r := a + ([NUL] + x), b + ([NUL] + y);
    assert l[|a|] == NUL && r[|b|] == NUL;
    assert forall i :: |a| < i < |l| ==> l[i] == x[i - |a| - 1];
    assert forall i :: |b| < i < |r| ==> r[i] == y[i - |b| - 1];
    assert l[..|a|] == a && r[..|b|] == b;
    assert l[|a| + 1..] == x && r[|b| + 1..] == y;
  }

  lemma MetricAndAggregateCancel(m: string, n: string, a: Aggregate, b: Aggregate, x: string, y: string)
    requires NUL !in x && NUL !in y
    requires m + ([NUL] + (AggregateName(a) + ([NUL] + x))) == n + ([NUL] + (AggregateName(b) + ([NUL] + y)))
    ensures m == n && a == b && x == y
  {
    var u, v := m + ([NUL] + AggregateName(a)), n + ([NUL] + AggregateName(b));
    Regroup(m, AggregateName(a), x);
    Regroup(n, AggregateName(b), y);
    CutLast(u, v, x, y);
    CutLast(m, n, AggregateName(a), AggregateName(b));
  }

  lemma Regroup(m: string, a: string, x: string)
    ensures m + ([NUL] + (a + ([NUL] + x))) == (m + ([NUL] + a)) + ([NUL] + x)
  {
    Assoc([NUL], a, [NUL] + x);
    Assoc(m, [NUL] + a, [NUL] + x);
  }

  /** The metric, the aggregate and the step, with the scope's key behind them. */
  lemma MiddleCancels(m: string, n: string, a: Aggregate, b: Aggregate, d: string, e: string, x: string, y: string)
    requires NUL !in d && NUL !in e && NUL !in x && NUL !in y
    requires KeyAfterSource(m, a, d, x) == KeyAfterSource(n, b, e, y)
    ensures m == n && a == b && d == e && x == y
  {
    var p, q := AggregateName(a), AggregateName(b);
    var l, r := m + ([NUL] + (p + ([NUL] + d))), n + ([NUL] + (q + ([NUL] + e)));
    assert l + ([NUL] + x) == m + ([NUL] + (p + ([NUL] + (d + ([NUL] + x))))) by {
      Regroup(p, d, x);
      Regroup(m, p + ([NUL] + d), x);
    }
    assert r + ([NUL] + y) == n + ([NUL] + (q + ([NUL] + (e + ([NUL] + y))))) by {
      Regroup(q, e, y);
      Regroup(n, q + ([NUL] + e), y);
    }
    CutLast(l, r, x, y);
    MetricAndAggregateCancel(m, n, a, b, d, e);
  }

  /**
   Two queries are one fetch exactly when they select the same rows: whatever an operator typed
   into a metric name, an app name, a search or a label, no two different selections collide.
   */
  lemma QueryKeyExact(p: Query, q: Query)
    requires p.step >= NANOS_PER_SECOND && q.step >= NANOS_PER_SECOND
    ensures p.Key() == q.Key() <==> p.Selected() == q.Selected()
  {
    ScopeKeyExact(p.scope, q.scope);
    if p.Key() == q.Key() {
      EqualKeysSelectAlike(p, q, DurationText(p.step), DurationText(q.step), ScopeKey(p.scope), ScopeKey(q.scope));
      DurationTextInjective(p.step, q.step);
    }
  }

  lemma EqualKeysSelectAlike(p: Query, q: Query, d: string, e: string, x: string, y: string)
    requires p.step >= NANOS_PER_SECOND && q.step >= NANOS_PER_SECOND
    requires d == DurationText(p.step) && e == DurationText(q.step)
    requires x == ScopeKey(p.scope) && y == ScopeKey(q.scope)
    requires p.Key() == q.Key()
    ensures p.source == q.source && p.metric == q.metric && p.aggregate == q.aggregate && d == e && x == y
  {
    ScopeKeyHasNoNul(p.scope);
    ScopeKeyHasNoNul(q.scope);
    DurationTextHasNoNul(p.step);
    DurationTextHasNoNul(q.step);
    CutFirst(SourceName(p.source), SourceName(q.source),
             KeyAfterSource(p.metric, p.aggregate, d, x), KeyAfterSource(q.metric, q.aggregate, e, y));
    MiddleCancels(p.metric, q.metric, p.aggregate, q.aggregate, d, e, x, y);
  }

  /** Query.Key as it runs, the scope rendered by its builder. */
  method RenderKey(q: Query) returns (key: string)
    requires q.step >= NANOS_PER_SECOND
    ensures key == q.Key()
  {
    var scope := RenderScope(q.scope);
    key := SourceName(q.source) + ([NUL] + KeyAfterSource(q.metric, q.aggregate, DurationText(q.step), scope));
  }
}
