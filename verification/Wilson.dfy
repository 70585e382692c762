/**
 The Wilson score interval a proportion is judged through. Its two ends are worked out over the
 rate p, the weight w = z^2 / n of the prior, and the half-width s before scaling.
 */
module Wilson {
  import opened Options
  import opened Stats

  /** The standard normal quantile of a supported interval; anything else reads as 95%. */
  function ZFor(confidence: real): real {
    if confidence == 0.90 then 1.6449
    else if confidence == 0.99 then 2.5758
    else 1.9600
  }

  datatype Interval = Interval(lo: real, hi: real)

  function Radicand(p: real, z2: real, trials: real): real
    requires trials > 0.0
  {
    p * (1.0 - p) / trials + z2 / (4.0 * trials * trials)
  }

  function Wilson(successes: real, trials: real, confidence: real): Option<Interval> {
    if trials <= 0.0 then None
    else
      var z := ZFor(confidence);
      var p := successes / trials;
      var z2 := z * z;
      var denom := 1.0 + z2 / trials;
      assert denom > 0.0 by { assert z2 / trials >= 0.0; }
      var centre := (p + z2 / (2.0 * trials)) / denom;
      var spread := z * SquareRoot(Radicand(p, z2, trials)) / denom;
      Some(Interval(MaxReal(centre - spread, 0.0), MinReal(centre + spread, 1.0)))
  }

  // ----- the interval over p, w and s ------------------------------------------------------------

  ghost predicate Shape(p: real, w: real, s: real) {
    0.0 <= p <= 1.0 && w > 0.0 && s >= 0.0 && s * s == w * (p * (1.0 - p)) + w * w / 4.0
  }

  function Lower(p: real, w: real, s: real): real
    requires w > 0.0
  {
    (p + w / 2.0 - s) / (1.0 + w)
  }

  function Upper(p: real, w: real, s: real): real
    requires w > 0.0
  {
    (p + w / 2.0 + s) / (1.0 + w)
  }

  lemma SquaresOrder(x: real, y: real)
    requires y >= 0.0 && x * x <= y * y
    ensures x <= y
  {
    if x > y {
      Scaled(y, x, y);
      Scaled(y, x, x);
      assert x * x - y * y == (x - y) * (x + y);
      PositiveProduct(x - y, x + y);
    }
  }

  lemma PositiveProduct(x: real, y: real)
    requires x > 0.0 && y > 0.0
    ensures x * y > 0.0
  {}

  lemma NonNegativeProduct(x: real, y: real)
    requires x >= 0.0 && y >= 0.0
    ensures x * y >= 0.0
  {}

  lemma Quotient(a: real, d: real)
    requires d > 0.0
    ensures (a / d) * d == a
  {}

  lemma QuotientOrder(a: real, b: real, d: real)
    requires d > 0.0
    ensures a <= b * d ==> a / d <= b
    ensures b * d <= a ==> b <= a / d
  {
    Quotient(a, d);
    ScaledStrictly(a / d, b, d);
    ScaledStrictly(b, a / d, d);
  }

  lemma ScaledStrictly(x: real, y: real, d: real)
    requires d > 0.0
    ensures x < y ==> x * d < y * d
  {
    if x < y {
      PositiveProduct(y - x, d);
      Distribute(y, -x, d);
    }
  }

  lemma Distribute(x: real, y: real, d: real)
    ensures (x + y) * d == x * d + y * d
  {}

  lemma ZeroProduct(x: real, y: real)
    requires x * y == 0.0
    ensures x == 0.0 || y == 0.0
  {}

  lemma SpreadBelowCentre(p: real, w: real, s: real)
    requires Shape(p, w, s)
    ensures s <= p + w / 2.0
  {
    var a := p + w / 2.0;
    assert a * a == p * p + p * w + w * w / 4.0;
    assert w * (p * (1.0 - p)) == p * w - w * (p * p);
    NonNegativeProduct(p, p);
    NonNegativeProduct(w, p * p);
    SquaresOrder(s, a);
  }

  lemma SpreadReachesRate(p: real, w: real, s: real)
    requires Shape(p, w, s)
    ensures w / 2.0 - p * w <= s
  {
    var h := w / 2.0 - p * w;
    var v := p * (1.0 - p);
    NonNegativeProduct(p, 1.0 - p);
    NonNegativeProduct(w, v);
    NonNegativeProduct(w * w, v) by { NonNegativeProduct(w, w); }
    assert h * h == w * w / 4.0 - (w * w) * v by {
      assert h == w * (0.5 - p);
      assert h * h == (w * w) * ((0.5 - p) * (0.5 - p));
      assert (0.5 - p) * (0.5 - p) == 0.25 - v;
    }
    SquaresOrder(h, s);
  }

  lemma MirrorShape(p: real, w: real, s: real)
    requires Shape(p, w, s)
    ensures Shape(1.0 - p, w, s) && Upper(p, w, s) == 1.0 - Lower(1.0 - p, w, s)
  {
    assert (1.0 - p) * (1.0 - (1.0 - p)) == p * (1.0 - p);
    var x, y, d := p + w / 2.0 + s, (1.0 - p) + w / 2.0 - s, 1.0 + w;
    Quotient(x, d);
    Quotient(y, d);
    Distribute(x / d, y / d, d);
    assert x + y == d;
    CancelFactor(x / d + y / d, 1.0, d);
  }

  lemma CancelFactor(x: real, y: real, d: real)
    requires d != 0.0 && x * d == y * d
    ensures x == y
  {
    assert (x - y) * d == 0.0;
  }

  lemma LowerBrackets(p: real, w: real, s: real)
    requires Shape(p, w, s)
    ensures 0.0 <= Lower(p, w, s) <= p
  {
    SpreadBelowCentre(p, w, s);
    SpreadReachesRate(p, w, s);
    QuotientOrder(p + w / 2.0 - s, 0.0, 1.0 + w);
    assert p * (1.0 + w) == p + p * w;
    QuotientOrder(p + w / 2.0 - s, p, 1.0 + w);
  }

  lemma UpperBrackets(p: real, w: real, s: real)
    requires Shape(p, w, s)
    ensures p <= Upper(p, w, s) <= 1.0
  {
    MirrorShape(p, w, s);
    LowerBrackets(1.0 - p, w, s);
  }

  /** How far x is from solving (p - x)^2 = w x (1 - x). */
  function Residue(p: real, w: real, x: real): real {
    (p - x) * (p - x) - w * (x * (1.0 - x))
  }

  lemma ResidueScaled(p: real, w: real, s: real, x: real)
    requires Shape(p, w, s)
    ensures (1.0 + w) * Residue(p, w, x)
            == (p + w / 2.0 - (1.0 + w) * x) * (p + w / 2.0 - (1.0 + w) * x) - s * s
  {
    var a, d := p + w / 2.0, 1.0 + w;
    var y := d * x;
    assert (a - y) * (a - y) == a * a - 2.0 * (a * y) + y * y;
    assert Residue(p, w, x) == p * p - 2.0 * (a * x) + d * (x * x) by {
      assert (p - x) * (p - x) == p * p - 2.0 * (p * x) + x * x;
      assert w * (x * (1.0 - x)) == w * x - w * (x * x);
      assert a * x == p * x + w * x / 2.0;
      assert d * (x * x) == x * x + w * (x * x);
    }
    assert d * Residue(p, w, x) == d * (p * p) - 2.0 * (a * y) + y * y by {
      assert d * (a * x) == a * y;
      assert d * (d * (x * x)) == y * y;
      assert d * (p * p - 2.0 * (a * x) + d * (x * x)) == d * (p * p) - 2.0 * (d * (a * x)) + d * (d * (x * x));
    }
    assert a * a - s * s == d * (p * p) by {
      assert a * a == p * p + p * w + w * w / 4.0;
      assert w * (p * (1.0 - p)) == p * w - w * (p * p);
      assert d * (p * p) == p * p + w * (p * p);
    }
  }

  /** Both ends solve the equation a Wilson interval is defined by. */
  lemma EndsAreRoots(p: real, w: real, s: real)
    requires Shape(p, w, s)
    ensures Residue(p, w, Lower(p, w, s)) == 0.0 && Residue(p, w, Upper(p, w, s)) == 0.0
  {
    var d := 1.0 + w;
    var lo, hi := Lower(p, w, s), Upper(p, w, s);
    Quotient(p + w / 2.0 - s, d);
    Quotient(p + w / 2.0 + s, d);
    ResidueScaled(p, w, s, lo);
    ResidueScaled(p, w, s, hi);
    assert p + w / 2.0 - d * lo == s && p + w / 2.0 - d * hi == -s;
    assert d * Residue(p, w, lo) == 0.0 && d * Residue(p, w, hi) == 0.0;
  }

  /** A point left of the rate that the equation leaves non-negative is left of the lower root. */
  lemma LeftOfLower(p: real, w: real, s: real, x: real)
    requires Shape(p, w, s) && 0.0 <= x <= p && Residue(p, w, x) >= 0.0
    requires x == p ==> p == 0.0
    ensures x <= Lower(p, w, s)
  {
    var d := 1.0 + w;
    var t := p + w / 2.0 - d * x;
    ResidueScaled(p, w, s, x);
    NonNegativeProduct(d, Residue(p, w, x));
    if t >= 0.0 {
      SquaresOrder(s, t);
      QuotientOrder(p + w / 2.0 - s, x, d);
    } else {
      assert (-t) * (-t) == t * t;
      SquaresOrder(s, -t);
      QuotientOrder(p + w / 2.0 + s, x, d);
      UpperBrackets(p, w, s);
      assert false;
    }
  }

  lemma LowerIsRateOnlyAtZero(p: real, w: real, s: real)
    requires Shape(p, w, s) && Lower(p, w, s) == p
    ensures p == 0.0
  {
    EndsAreRoots(p, w, s);
    ZeroProduct(w, p * (1.0 - p));
    ZeroProduct(p, 1.0 - p);
    Quotient(p + w / 2.0 - s, 1.0 + w);
  }

  /** More evidence at the same rate never lowers the lower end. */
  lemma LowerRisesWithEvidence(p: real, w: real, s: real, w': real, s': real)
    requires Shape(p, w, s) && Shape(p, w', s') && w' <= w
    ensures Lower(p, w, s) <= Lower(p, w', s')
  {
    var x := Lower(p, w, s);
    LowerBrackets(p, w, s);
    EndsAreRoots(p, w, s);
    if x == p { LowerIsRateOnlyAtZero(p, w, s); }
    ResidueRises(p, w, w', x);
    LeftOfLower(p, w', s', x);
  }

  lemma ResidueRises(p: real, w: real, w': real, x: real)
    requires Residue(p, w, x) == 0.0 && 0.0 <= x <= 1.0 && w' <= w
    ensures Residue(p, w', x) >= 0.0
  {
    NonNegativeProduct(x, 1.0 - x);
    Scaled(w', w, x * (1.0 - x));
  }

  // ----- the same facts about the computed interval ----------------------------------------------

  /** The computed interval is the one over p, w and s, and neither clamp changes it. */
  lemma WilsonShape(successes: real, trials: real, confidence: real) returns (p: real, w: real, s: real)
    requires 0.0 <= successes <= trials && trials > 0.0
    requires var z := ZFor(confidence); RootAt(Radicand(successes / trials, z * z, trials))
    ensures p == successes / trials && w == ZFor(confidence) * ZFor(confidence) / trials
    ensures s == ZFor(confidence) * SquareRoot(Radicand(p, ZFor(confidence) * ZFor(confidence), trials))
    ensures Shape(p, w, s)
    ensures Wilson(successes, trials, confidence) == Some(Interval(Lower(p, w, s), Upper(p, w, s)))
  {
    var z := ZFor(confidence);
    p, w := successes / trials, z * z / trials;
    s := z * SquareRoot(Radicand(p, z * z, trials));
    QuotientOrder(successes, 0.0, trials);
    QuotientOrder(successes, 1.0, trials);
    RootHasShape(p, z, trials);
    UnclampedEnds(p, w, s);
    WilsonUnfolded(successes, trials, confidence);
  }

  lemma RootHasShape(p: real, z: real, trials: real)
    requires 0.0 <= p <= 1.0 && z > 0.0 && trials > 0.0 && RootAt(Radicand(p, z * z, trials))
    ensures Shape(p, z * z / trials, z * SquareRoot(Radicand(p, z * z, trials)))
  {
    var z2 := PositiveSquare(z);
    var root := SquareRoot(Radicand(p, z2, trials));
    PositiveQuotient(z2, trials);
    NonNegativeProduct(z, root);
    SquareOfProduct(z, root);
    RadicandScaled(p, z2, trials);
  }

  lemma WilsonUnfolded(successes: real, trials: real, confidence: real)
    requires trials > 0.0
    ensures var z := ZFor(confidence);
            var p, w := successes / trials, z * z / trials;
            var s := z * SquareRoot(Radicand(p, z * z, trials));
            && 1.0 + w > 0.0
            && Wilson(successes, trials, confidence)
               == Some(Interval(MaxReal((p + w / 2.0) / (1.0 + w) - s / (1.0 + w), 0.0),
                                MinReal((p + w / 2.0) / (1.0 + w) + s / (1.0 + w), 1.0)))
  {
    HalfWeight(ZFor(confidence) * ZFor(confidence), trials);
    PositiveProduct(ZFor(confidence), ZFor(confidence));
    PositiveQuotient(ZFor(confidence) * ZFor(confidence), trials);
  }

  lemma SquareOfProduct(x: real, y: real)
    ensures (x * y) * (x * y) == (x * x) * (y * y)
  {}

  lemma UnclampedEnds(p: real, w: real, s: real)
    requires Shape(p, w, s)
    ensures MaxReal((p + w / 2.0) / (1.0 + w) - s / (1.0 + w), 0.0) == Lower(p, w, s)
    ensures MinReal((p + w / 2.0) / (1.0 + w) + s / (1.0 + w), 1.0) == Upper(p, w, s)
  {
    LowerBrackets(p, w, s);
    UpperBrackets(p, w, s);
    SplitQuotient(p + w / 2.0, s, 1.0 + w);
  }

  lemma PositiveSquare(z: real) returns (z2: real)
    requires z > 0.0
    ensures z2 == z * z && z2 > 0.0
  {
    z2 := z * z;
    PositiveNamed(z, z, z2);
  }

  lemma PositiveNamed(x: real, y: real, q: real)
    requires x > 0.0 && y > 0.0 && q == x * y
    ensures q > 0.0
  {}

  lemma PositiveQuotient(a: real, d: real)
    requires a > 0.0 && d > 0.0
    ensures a / d > 0.0
  {}

  lemma HalfWeight(z2: real, n: real)
    requires n > 0.0
    ensures z2 / (2.0 * n) == z2 / n / 2.0
  {
    Quotient(z2, n);
    Quotient(z2, 2.0 * n);
    CancelFactor(z2 / (2.0 * n), z2 / n / 2.0, 2.0 * n);
  }

  lemma SplitQuotient(a: real, s: real, d: real)
    requires d > 0.0
    ensures (a - s) / d == a / d - s / d && (a + s) / d == a / d + s / d
  {
    Quotient(a, d);
    Quotient(s, d);
    Quotient(a - s, d);
    Quotient(a + s, d);
    CancelFactor((a - s) / d, a / d - s / d, d);
    CancelFactor((a + s) / d, a / d + s / d, d);
  }

  lemma RadicandScaled(p: real, z2: real, n: real)
    requires n > 0.0
    ensures var w := z2 / n; z2 * Radicand(p, z2, n) == w * (p * (1.0 - p)) + w * w / 4.0
  {
    var w, v := z2 / n, p * (1.0 - p);
    Quotient(z2, n);
    Quotient(v, n);
    Regrouped(w, n, v / n);
    assert z2 * (v / n) == w * v;
    QuarterWeight(z2, n);
    var q := z2 / (4.0 * n * n);
    Regrouped(w, n, q);
    assert z2 * q == w * (q * n);
    assert w * (w / 4.0) == w * w / 4.0;
  }

  lemma Regrouped(x: real, y: real, z: real)
    ensures (x * y) * z == x * (z * y)
  {}

  lemma QuarterWeight(z2: real, n: real)
    requires n > 0.0
    ensures z2 / (4.0 * n * n) * n == z2 / n / 4.0
  {
    var m, w := 4.0 * n, z2 / n;
    PositiveProduct(m, n);
    var d := m * n;
    assert d > 0.0;
    var q := z2 / d;
    Quotient(z2, d);
    Quotient(z2, n);
    assert (q * n) * m == q * d;
    assert (w / 4.0) * m == w * n;
    CancelFactor(q * n, w / 4.0, m);
  }

  /**
   The interval of k successes in n trials: the two roots of its defining equation, in order
   around the observed rate and inside [0, 1].
   */
  lemma WilsonInterval(k: real, n: real, confidence: real)
    requires 0.0 <= k <= n && n > 0.0
    requires var z := ZFor(confidence); RootAt(Radicand(k / n, z * z, n))
    ensures var z := ZFor(confidence);
            var i := Wilson(k, n, confidence).value;
            && 0.0 <= i.lo <= k / n <= i.hi <= 1.0
            && Residue(k / n, z * z / n, i.lo) == 0.0 && Residue(k / n, z * z / n, i.hi) == 0.0
  {
    var p, w, s := WilsonShape(k, n, confidence);
    LowerBrackets(p, w, s);
    UpperBrackets(p, w, s);
    EndsAreRoots(p, w, s);
  }

  /** Counting failures instead of successes mirrors the interval. */
  lemma WilsonMirrors(k: real, n: real, confidence: real)
    requires 0.0 <= k <= n && n > 0.0
    requires var z := ZFor(confidence); RootAt(Radicand(k / n, z * z, n))
    ensures var i, j := Wilson(k, n, confidence).value, Wilson(n - k, n, confidence).value;
            i.hi == 1.0 - j.lo && i.lo == 1.0 - j.hi
  {
    var z2 := ZFor(confidence) * ZFor(confidence);
    var p := k / n;
    assert (n - k) / n == 1.0 - p by {
      SplitQuotient(n, k, n);
      Quotient(n, n);
      CancelFactor(n / n, 1.0, n);
    }
    assert (1.0 - p) * (1.0 - (1.0 - p)) == p * (1.0 - p);
    assert Radicand(1.0 - p, z2, n) == Radicand(p, z2, n);
    var p1, w1, s1 := WilsonShape(k, n, confidence);
    var p2, w2, s2 := WilsonShape(n - k, n, confidence);
    MirrorShape(p1, w1, s1);
    MirrorShape(p2, w2, s2);
  }

  lemma WeightFalls(z2: real, n: real, m: real)
    requires z2 > 0.0 && 0.0 < n <= m
    ensures z2 / m <= z2 / n
  {
    Quotient(z2, n);
    NonNegativeProduct(z2 / n, m - n) by { PositiveQuotient(z2, n); }
    assert (z2 / n) * m == (z2 / n) * n + (z2 / n) * (m - n);
    QuotientOrder(z2, z2 / n, m);
  }

  /** At one rate, more trials never lower the lower end nor raise the upper one. */
  lemma WilsonTightens(k: real, n: real, j: real, m: real, confidence: real)
    requires 0.0 <= k <= n && 0.0 < n <= m && 0.0 <= j <= m && k / n == j / m
    requires var z := ZFor(confidence); RootAt(Radicand(k / n, z * z, n)) && RootAt(Radicand(j / m, z * z, m))
    ensures Wilson(k, n, confidence).value.lo <= Wilson(j, m, confidence).value.lo
    ensures Wilson(j, m, confidence).value.hi <= Wilson(k, n, confidence).value.hi
  {
    var p, w, s := WilsonShape(k, n, confidence);
    var q, w', s' := WilsonShape(j, m, confidence);
    PositiveProduct(ZFor(confidence), ZFor(confidence));
    WeightFalls(ZFor(confidence) * ZFor(confidence), n, m);
    LowerRisesWithEvidence(p, w, s, w', s');
    MirrorShape(p, w, s);
    MirrorShape(q, w', s');
    LowerRisesWithEvidence(1.0 - p, w, s, w', s');
  }
}
