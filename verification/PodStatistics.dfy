/**
 Reading a pod statistic onto a watch's grid: which pods and which tier a span reaches, what the rows
 in it amount to, and how the pods' numbers combine. Unlike a table's buckets, these depend on where
 the span begins.
 */
module PodStatistics {
  import opened Options
  import opened Queries
  import opened SeriesGrid
  import SeriesBuffers

  const POD_LOOKBACK := 3600 * NANOS_PER_SECOND
  const MAX_PODS := 32
  const MAX_POINTS := 5000

  datatype FetchError = Coarse | Refused

  datatype Tier = Live | Rollup

  /** One row's reading of one series; a row without one is a gap. */
  datatype Scrape = Scrape(atMS: int, value: Option<real>)

  /** A metric under one label set on one pod, its rows oldest first. */
  datatype PodSeries = PodSeries(counter: bool, live: seq<Scrape>, rollup: seq<Scrape>)
  {
    function Rows(tier: Tier): seq<Scrape> { if tier == Live then live else rollup }
  }

  /** series resolves a metric and its labels on the pod, or refuses when too many match. */
  datatype Pod = Pod(
    name: string, lastSeen: int, reach: int, interval: int, rollupInterval: int,
    series: (string, map<string, string>) -> Option<seq<PodSeries>>)
  {
    function Step(tier: Tier): int { if tier == Live then interval else rollupInterval }
  }

  // ----- one series ------------------------------------------------------------------------------

  /** A reading below the one before means a restart, and is all growth. */
  function Growth(previous: real, current: real): real {
    if current < previous then current else current - previous
  }

  /**
   The point row k makes in a read that begins at fromMS: a live counter's is its growth since the
   row before, of which the oldest row read has none.
   */
  function PointAt(s: PodSeries, tier: Tier, fromMS: int, k: nat): Option<real>
    requires k < |s.Rows(tier)|
  {
    var rows := s.Rows(tier);
    if !(s.counter && tier == Live) then rows[k].value
    else if k == 0 || rows[k].atMS <= fromMS || rows[k].value.None? || rows[k - 1].value.None? then None
    else Some(Growth(rows[k - 1].value.value, rows[k].value.value))
  }

  /** The points of the first n rows, both ends of the span included. */
  function Points(s: PodSeries, tier: Tier, fromMS: int, toMS: int, n: nat): seq<Scrape>
    requires n <= |s.Rows(tier)|
  {
    if n == 0 then []
    else
      var at := s.Rows(tier)[n - 1].atMS;
      var p := Points(s, tier, fromMS, toMS, n - 1);
      if fromMS <= at <= toMS then p + [Scrape(at, PointAt(s, tier, fromMS, n - 1))] else p
  }

  function AllPoints(s: PodSeries, tier: Tier, fromMS: int, toMS: int): seq<Scrape> {
    Points(s, tier, fromMS, toMS, |s.Rows(tier)|)
  }

  function Newest(ps: seq<Scrape>): seq<Scrape> {
    if |ps| > MAX_POINTS then ps[|ps| - MAX_POINTS..] else ps
  }

  /** The values of the points in [lo, hi), in order. */
  function Landed(ps: seq<Scrape>, lo: int, hi: int): seq<real> {
    if ps == [] then []
    else
      var p := ps[|ps| - 1];
      Landed(ps[..|ps| - 1], lo, hi) + if lo <= p.atMS < hi && p.value.Some? then [p.value.value] else []
  }

  /** A span of time at the watch's step; what is read reaches from its first instant to its last. */
  datatype Span = Span(from: int, to: int, step: int)

  function Ok(r: Result<real, ReduceError>): Option<real> {
    match r case Success(v) => Some(v) case Failure(_) => None
  }

  /** What one series says of the bucket that starts at t. */
  function Number(s: PodSeries, tier: Tier, agg: Aggregate, span: Span, t: int): Option<real> {
    var ps := Newest(AllPoints(s, tier, UnixMilli(span.from), UnixMilli(span.to)));
    Ok(Reduced(agg, Landed(ps, UnixMilli(t), UnixMilli(t + span.step))))
  }

  // ----- many series -----------------------------------------------------------------------------

  function Numbers(list: seq<PodSeries>, tier: Tier, agg: Aggregate, span: Span, t: int): seq<real> {
    if list == [] then []
    else
      var n := |list| - 1;
      Numbers(list[..n], tier, agg, span, t)
      + match Number(list[n], tier, agg, span, t) case Some(v) => [v] case None => []
  }

  predicate HasPoints(s: PodSeries, tier: Tier, span: Span) {
    AllPoints(s, tier, UnixMilli(span.from), UnixMilli(span.to)) != []
  }

  /** How many series have any row in the span, whether or not it holds a value. */
  function Reporting(list: seq<PodSeries>, tier: Tier, span: Span): nat {
    if list == [] then 0
    else Reporting(list[..|list| - 1], tier, span) + if HasPoints(list[|list| - 1], tier, span) then 1 else 0
  }

  /** A sum needs every series that is there; anything else is an answer about those that reported. */
  predicate Usable(across: Aggregate, values: seq<real>, count: nat) {
    values != [] && (across == Sum ==> |values| == count)
  }

  function Across(list: seq<PodSeries>, tier: Tier, agg: Aggregate, across: Aggregate, span: Span, t: int): Option<real>
  {
    var values := Numbers(list, tier, agg, span, t);
    if Usable(across, values, Reporting(list, tier, span)) then Ok(Reduced(across, values)) else None
  }

  // ----- which series, from which tier -----------------------------------------------------------

  /** The aggregate a scope combines pods by, the worst of them unless it says otherwise. */
  function AcrossOf(text: string): Option<Aggregate> {
    if text == "" then Some(Max)
    else if text == "count" then Some(Count)
    else if text == "sum" then Some(Sum)
    else if text == "avg" then Some(Avg)
    else if text == "min" then Some(Min)
    else if text == "max" then Some(Max)
    else if text == "p95" then Some(P95)
    else None
  }

  /** The index keeps pods by when they were last seen, latest first. */
  function Recent(pods: seq<Pod>, since: int): seq<Pod> {
    if pods == [] || pods[0].lastSeen < since then [] else [pods[0]] + Recent(pods[1..], since)
  }

  function Capped(pods: seq<Pod>): seq<Pod> { if |pods| > MAX_PODS then pods[..MAX_PODS] else pods }

  /** The pods named, or all of them when none is. */
  function Kept(pods: seq<Pod>, names: multiset<string>): seq<Pod> {
    if pods == [] then []
    else
      var n := |pods| - 1;
      Kept(pods[..n], names) + if names == multiset{} || pods[n].name in names then [pods[n]] else []
  }

  predicate Reaches(pod: Pod, clock: int, from: int) { pod.reach != 0 && clock - from <= pod.reach }

  /** The live tier only when every pod can reach back that far. */
  function PickTier(pods: seq<Pod>, clock: int, from: int): Tier {
    if forall i :: 0 <= i < |pods| ==> Reaches(pods[i], clock, from) then Live else Rollup
  }

  function StepOf(pods: seq<Pod>, tier: Tier): int {
    if pods == [] then 0
    else
      var rest := StepOf(pods[..|pods| - 1], tier);
      if pods[|pods| - 1].Step(tier) > rest then pods[|pods| - 1].Step(tier) else rest
  }

  function Gathered(pods: seq<Pod>, metric: string, labels: map<string, string>): Option<seq<PodSeries>> {
    if pods == [] then Some([])
    else match (Gathered(pods[..|pods| - 1], metric, labels), pods[|pods| - 1].series(metric, labels))
      case (Some(a), Some(b)) => Some(a + b)
      case _ => None
  }

  /** What a read that begins at an instant finds to read, or why it is refused. */
  datatype Resolved = Denied(error: FetchError) | Reads(tier: Tier, list: seq<PodSeries>)

  function Resolve(pods: string -> seq<Pod>, clock: int, sel: Selection, from: int): Resolved {
    if AcrossOf(sel.rows.across).None? || sel.rows.deploymentID == "" then Denied(Refused)
    else
      var seen := Recent(pods(sel.rows.deploymentID), from - POD_LOOKBACK);
      var kept := Kept(Capped(seen), sel.rows.pods);
      if kept == [] then Reads(Live, [])
      else
        var tier := PickTier(kept, clock, from);
        match Gathered(kept, sel.metric, sel.rows.labels)
        case None => Denied(Refused)
        case Some(list) =>
          if StepOf(kept, tier) > sel.step || |seen| > MAX_PODS then Denied(Coarse) else Reads(tier, list)
  }

  // ----- when a read is refused --------------------------------------------------------------------

  /** The scope names a deployment, and a way to combine its pods. */
  predicate Askable(sel: Selection) { AcrossOf(sel.rows.across).Some? && sel.rows.deploymentID != "" }

  /** The pods of the index a read that begins at an instant has to do with. */
  function SeenBy(index: seq<Pod>, from: int): seq<Pod> { Recent(index, from - POD_LOOKBACK) }

  function KeptBy(index: seq<Pod>, sel: Selection, from: int): seq<Pod> {
    Kept(Capped(SeenBy(index, from)), sel.rows.pods)
  }

  predicate Resolves(pod: Pod, sel: Selection) { pod.series(sel.metric, sel.rows.labels).Some? }

  /** Every pod the read has to do with resolves the selector. */
  predicate Resolvable(index: seq<Pod>, sel: Selection, from: int) {
    var kept := KeptBy(index, sel, from);
    forall i :: 0 <= i < |kept| ==> Resolves(kept[i], sel)
  }

  /** There are more pods than one read carries, or one of those read scrapes more coarsely than the watch steps. */
  predicate Overreaches(index: seq<Pod>, clock: int, sel: Selection, from: int) {
    var kept := KeptBy(index, sel, from);
    var tier := PickTier(kept, clock, from);
    kept != [] && (|SeenBy(index, from)| > MAX_PODS || exists i :: 0 <= i < |kept| && kept[i].Step(tier) > sel.step)
  }

  lemma {:induction false} StepOfIsGreatest(pods: seq<Pod>, tier: Tier, bound: nat)
    ensures StepOf(pods, tier) > bound <==> exists i :: 0 <= i < |pods| && pods[i].Step(tier) > bound
  {
    if pods != [] {
      var n := |pods| - 1;
      StepOfIsGreatest(pods[..n], tier, bound);
      if i :| 0 <= i < |pods| && pods[i].Step(tier) > bound { assert i < n ==> pods[..n][i] == pods[i]; }
    }
  }

  lemma {:induction false} GatheredIfAll(pods: seq<Pod>, sel: Selection)
    ensures Gathered(pods, sel.metric, sel.rows.labels).Some? <==>
              forall i :: 0 <= i < |pods| ==> Resolves(pods[i], sel)
  {
    if pods != [] {
      var n := |pods| - 1;
      GatheredIfAll(pods[..n], sel);
      assert forall i :: 0 <= i < n ==> pods[..n][i] == pods[i];
    }
  }

  /** What a read is refused for, in terms of the scope and the index alone. */
  lemma RefusedExactly(pods: string -> seq<Pod>, clock: int, sel: Selection, from: int)
    ensures var r, index := Resolve(pods, clock, sel, from), pods(sel.rows.deploymentID);
            && (r.Reads? <==> Askable(sel) && Resolvable(index, sel, from) && !Overreaches(index, clock, sel, from))
            && (r == Denied(Refused) <==> !Askable(sel) || !Resolvable(index, sel, from))
            && (r == Denied(Coarse) <==>
                  Askable(sel) && Resolvable(index, sel, from) && Overreaches(index, clock, sel, from))
  {
    hide AcrossOf, PickTier, Gathered, StepOf, Resolves, Recent, Kept, Capped;
    var index := pods(sel.rows.deploymentID);
    var kept := KeptBy(index, sel, from);
    GatheredIfAll(kept, sel);
    StepOfIsGreatest(kept, PickTier(kept, clock, from), sel.step);
  }

  /** What the bucket that starts at t reads in a read that found r. */
  function PodReading(r: Resolved, sel: Selection, span: Span, t: int): SeriesBuffers.Reading
    requires r.Reads? && AcrossOf(sel.rows.across).Some?
  {
    SeriesBuffers.Reading(Across(r.list, r.tier, sel.aggregate, AcrossOf(sel.rows.across).value, span, t), None)
  }

  lemma ReadsHaveAcross(pods: string -> seq<Pod>, clock: int, sel: Selection, from: int)
    requires Resolve(pods, clock, sel, from).Reads?
    ensures AcrossOf(sel.rows.across).Some?
  {}

  // ----- what the start of a span changes ----------------------------------------------------------

  ghost predicate Ascending(rows: seq<Scrape>) {
    forall i, k :: 0 <= i < k < |rows| ==> rows[i].atMS < rows[k].atMS
  }

  /**
   A read beginning at fromMS loses a growth that one beginning earlier has: a counter was scraped at
   that very instant.
   */
  ghost predicate LosesGrowth(s: PodSeries, tier: Tier, fromMS: int) {
    var rows := s.Rows(tier);
    s.counter && tier == Live
    && exists k :: 0 < k < |rows| && rows[k].atMS == fromMS && rows[k].value.Some? && rows[k - 1].value.Some?
  }

  /** A read that begins earlier has the same points from the later beginning on. */
  lemma {:induction false} PointsFromEarlier(s: PodSeries, tier: Tier, early: int, fromMS: int, toMS: int, n: nat)
    returns (before: seq<Scrape>)
    requires n <= |s.Rows(tier)| && early <= fromMS && Ascending(s.Rows(tier))
    requires early < fromMS ==> !LosesGrowth(s, tier, fromMS)
    ensures Points(s, tier, early, toMS, n) == before + Points(s, tier, fromMS, toMS, n)
    ensures forall i :: 0 <= i < |before| ==> before[i].atMS < fromMS
    ensures n > 0 && s.Rows(tier)[n - 1].atMS < fromMS ==> Points(s, tier, fromMS, toMS, n) == []
  {
    if n == 0 {
      before := [];
    } else {
      var rows := s.Rows(tier);
      var at := rows[n - 1].atMS;
      before := PointsFromEarlier(s, tier, early, fromMS, toMS, n - 1);
      if at < fromMS {
        assert n > 1 ==> rows[n - 2].atMS < at;
        if early <= at <= toMS {
          before := before + [Scrape(at, PointAt(s, tier, early, n - 1))];
        }
      } else {
        assert PointAt(s, tier, early, n - 1) == PointAt(s, tier, fromMS, n - 1);
      }
    }
  }

  lemma {:induction false} LandedConcat(a: seq<Scrape>, b: seq<Scrape>, lo: int, hi: int)
    ensures Landed(a + b, lo, hi) == Landed(a, lo, hi) + Landed(b, lo, hi)
  {
    if b == [] {
      assert a + b == a;
    } else {
      assert (a + b)[..|a + b| - 1] == a + b[..|b| - 1];
      LandedConcat(a, b[..|b| - 1], lo, hi);
    }
  }

  lemma {:induction false} NoneLands(ps: seq<Scrape>, lo: int, hi: int)
    requires forall i :: 0 <= i < |ps| ==> ps[i].atMS < lo
    ensures Landed(ps, lo, hi) == []
  {
    if ps != [] { NoneLands(ps[..|ps| - 1], lo, hi); }
  }

  /** Keeping the newest points loses none that a later beginning would have kept. */
  lemma NewestLands(before: seq<Scrape>, ps: seq<Scrape>, lo: int, hi: int)
    requires forall i :: 0 <= i < |before| ==> before[i].atMS < lo
    ensures Landed(Newest(before + ps), lo, hi) == Landed(Newest(ps), lo, hi)
  {
    hide Landed;
    var all := before + ps;
    if |ps| > MAX_POINTS {
      assert all[|all| - MAX_POINTS..] == ps[|ps| - MAX_POINTS..];
    } else {
      var kept := if |all| > MAX_POINTS then before[|all| - MAX_POINTS..] else before;
      assert Newest(all) == kept + ps;
      LandedConcat(kept, ps, lo, hi);
      NoneLands(kept, lo, hi);
    }
  }

  lemma MilliOrder(a: int, b: int)
    requires a <= b
    ensures UnixMilli(a) <= UnixMilli(b)
  {}

  /** own is a span, wide one that begins earlier and ends with it, and t the start of a bucket of own. */
  ghost predicate Within(own: Span, wide: Span, t: int) {
    wide.from <= own.from <= t && wide.to == own.to && wide.step == own.step
  }

  ghost predicate SameStart(own: Span, wide: Span) { UnixMilli(own.from) == UnixMilli(wide.from) }

  lemma NumberFromEarlier(s: PodSeries, tier: Tier, agg: Aggregate, own: Span, wide: Span, t: int)
    requires Within(own, wide, t) && Ascending(s.Rows(tier))
    requires SameStart(own, wide) || !LosesGrowth(s, tier, UnixMilli(own.from))
    ensures Number(s, tier, agg, wide, t) == Number(s, tier, agg, own, t)
    ensures HasPoints(s, tier, own) ==> HasPoints(s, tier, wide)
  {
    hide Points, Newest, Landed, LosesGrowth, Ascending;
    MilliOrder(wide.from, own.from);
    MilliOrder(own.from, t);
    var before := PointsFromEarlier(
      s, tier, UnixMilli(wide.from), UnixMilli(own.from), UnixMilli(own.to), |s.Rows(tier)|);
    var ps := AllPoints(s, tier, UnixMilli(own.from), UnixMilli(own.to));
    NewestLands(before, ps, UnixMilli(t), UnixMilli(t + own.step));
  }

  /** A series whose rows all precede the bucket says nothing of it. */
  lemma NumberOfPast(s: PodSeries, tier: Tier, agg: Aggregate, span: Span, t: int)
    requires forall i :: 0 <= i < |s.Rows(tier)| ==> s.Rows(tier)[i].atMS < UnixMilli(t)
    ensures Number(s, tier, agg, span, t) == None
  {
    hide Landed, Points;
    var ps := AllPoints(s, tier, UnixMilli(span.from), UnixMilli(span.to));
    PointsAreRows(s, tier, UnixMilli(span.from), UnixMilli(span.to), |s.Rows(tier)|, UnixMilli(t));
    NoneLands(Newest(ps), UnixMilli(t), UnixMilli(t + span.step));
  }

  lemma {:induction false} PointsAreRows(s: PodSeries, tier: Tier, fromMS: int, toMS: int, n: nat, end: int)
    requires n <= |s.Rows(tier)| && forall i :: 0 <= i < n ==> s.Rows(tier)[i].atMS < end
    ensures forall i :: 0 <= i < |Points(s, tier, fromMS, toMS, n)| ==> Points(s, tier, fromMS, toMS, n)[i].atMS < end
  {
    if n > 0 { PointsAreRows(s, tier, fromMS, toMS, n - 1, end); }
  }

  lemma {:induction false} NumbersConcat(
      a: seq<PodSeries>, b: seq<PodSeries>, tier: Tier, agg: Aggregate, span: Span, t: int)
    ensures Numbers(a + b, tier, agg, span, t) == Numbers(a, tier, agg, span, t) + Numbers(b, tier, agg, span, t)
    ensures Reporting(a + b, tier, span) == Reporting(a, tier, span) + Reporting(b, tier, span)
  {
    hide Number, HasPoints;
    if b == [] {
      assert a + b == a;
    } else {
      assert (a + b)[..|a + b| - 1] == a + b[..|b| - 1];
      NumbersConcat(a, b[..|b| - 1], tier, agg, span, t);
    }
  }

  /** Some series has a row in the wide span and none in the own. */
  ghost predicate Absent(list: seq<PodSeries>, tier: Tier, own: Span, wide: Span) {
    exists i :: 0 <= i < |list| && HasPoints(list[i], tier, wide) && !HasPoints(list[i], tier, own)
  }

  ghost predicate Kindred(list: seq<PodSeries>, tier: Tier, own: Span, wide: Span) {
    && AllAscending(list, tier)
    && forall i :: 0 <= i < |list| ==> SameStart(own, wide) || !LosesGrowth(list[i], tier, UnixMilli(own.from))
  }

  /** Series that were read by both: the same numbers, and as many reporting unless one is absent. */
  lemma {:induction false} NumbersFromEarlier(
      list: seq<PodSeries>, tier: Tier, agg: Aggregate, own: Span, wide: Span, t: int)
    requires Within(own, wide, t) && Kindred(list, tier, own, wide)
    ensures Numbers(list, tier, agg, wide, t) == Numbers(list, tier, agg, own, t)
    ensures |Numbers(list, tier, agg, own, t)| <= Reporting(list, tier, own) <= Reporting(list, tier, wide)
    ensures Reporting(list, tier, own) == Reporting(list, tier, wide) <==> !Absent(list, tier, own, wide)
  {
    hide Number, HasPoints, Ascending, LosesGrowth, Within, SameStart;
    if list != [] {
      var n := |list| - 1;
      NumbersFromEarlier(list[..n], tier, agg, own, wide, t);
      NumberFromEarlier(list[n], tier, agg, own, wide, t);
      NumberNeedsPoints(list[n], tier, agg, own, t);
      AbsentSnoc(list, tier, own, wide);
    }
  }

  lemma AbsentSnoc(list: seq<PodSeries>, tier: Tier, own: Span, wide: Span)
    requires list != []
    ensures var n := |list| - 1;
            Absent(list, tier, own, wide) <==>
              Absent(list[..n], tier, own, wide) || (HasPoints(list[n], tier, wide) && !HasPoints(list[n], tier, own))
  {
    hide HasPoints;
    var n := |list| - 1;
    if i :| 0 <= i < n && HasPoints(list[..n][i], tier, wide) && !HasPoints(list[..n][i], tier, own) {
      assert list[i] == list[..n][i];
    }
    if i :| 0 <= i < |list| && HasPoints(list[i], tier, wide) && !HasPoints(list[i], tier, own) {
      assert i < n ==> list[..n][i] == list[i];
    }
  }

  lemma NumberNeedsPoints(s: PodSeries, tier: Tier, agg: Aggregate, span: Span, t: int)
    ensures Number(s, tier, agg, span, t).Some? ==> HasPoints(s, tier, span)
  {}

  /**
   Series only the wide read looks at: pods last seen long before the own span, with nothing to say of
   its buckets.
   */
  lemma {:induction false} NumbersOfPast(list: seq<PodSeries>, tier: Tier, agg: Aggregate, span: Span, t: int)
    requires forall i, k :: 0 <= i < |list| && 0 <= k < |list[i].Rows(tier)| ==>
               list[i].Rows(tier)[k].atMS < UnixMilli(t)
    ensures Numbers(list, tier, agg, span, t) == []
  {
    hide Number;
    if list != [] {
      var n := |list| - 1;
      forall i, k | 0 <= i < n && 0 <= k < |list[..n][i].Rows(tier)|
        ensures list[..n][i].Rows(tier)[k].atMS < UnixMilli(t)
      {
        assert list[..n][i] == list[i];
      }
      NumbersOfPast(list[..n], tier, agg, span, t);
      NumberOfPast(list[n], tier, agg, span, t);
    }
  }

  lemma {:induction false} NobodyReports(list: seq<PodSeries>, tier: Tier, span: Span)
    requires forall i, k :: 0 <= i < |list| && 0 <= k < |list[i].Rows(tier)| ==>
               list[i].Rows(tier)[k].atMS < UnixMilli(span.from)
    ensures Reporting(list, tier, span) == 0
  {
    if list != [] {
      var n := |list| - 1;
      forall i, k | 0 <= i < n && 0 <= k < |list[..n][i].Rows(tier)|
        ensures list[..n][i].Rows(tier)[k].atMS < UnixMilli(span.from)
      {
        assert list[..n][i] == list[i];
      }
      NobodyReports(list[..n], tier, span);
      PastHasNoPoints(list[n], tier, UnixMilli(span.from), UnixMilli(span.to), |list[n].Rows(tier)|);
    }
  }

  lemma {:induction false} PastHasNoPoints(s: PodSeries, tier: Tier, fromMS: int, toMS: int, n: nat)
    requires n <= |s.Rows(tier)| && forall k :: 0 <= k < n ==> s.Rows(tier)[k].atMS < fromMS
    ensures Points(s, tier, fromMS, toMS, n) == []
  {
    if n > 0 { PastHasNoPoints(s, tier, fromMS, toMS, n - 1); }
  }

  ghost predicate AllAscending(list: seq<PodSeries>, tier: Tier) {
    forall i :: 0 <= i < |list| ==> Ascending(list[i].Rows(tier))
  }

  /** Every row of these series precedes an instant. */
  ghost predicate Past(list: seq<PodSeries>, tier: Tier, endMS: int) {
    forall i, k :: 0 <= i < |list| && 0 <= k < |list[i].Rows(tier)| ==> list[i].Rows(tier)[k].atMS < endMS
  }

  /**
   A bucket read as part of a longer span: the number it has in a span of its own, except that a sum
   is blanked by any series that has a row in the longer span and none in the shorter.
   */
  lemma AcrossFromEarlier(
      list: seq<PodSeries>, more: seq<PodSeries>, tier: Tier, agg: Aggregate, across: Aggregate,
      own: Span, wide: Span, t: int)
    requires Within(own, wide, t) && Kindred(list + more, tier, own, wide) && Past(more, tier, UnixMilli(own.from))
    ensures Across(list + more, tier, agg, across, wide, t)
            == if across == Sum && Absent(list + more, tier, own, wide) then None
               else Across(list, tier, agg, across, own, t)
  {
    hide Numbers, Reporting, Absent, Kindred;
    MilliOrder(own.from, t);
    NumbersFromEarlier(list + more, tier, agg, own, wide, t);
    NumbersConcat(list, more, tier, agg, own, t);
    NumbersOfPast(more, tier, agg, own, t);
    NobodyReports(more, tier, own);
    assert Numbers(list, tier, agg, own, t) + [] == Numbers(list, tier, agg, own, t);
    SomeReport(list, tier, agg, own, wide, t);
  }

  lemma SomeReport(list: seq<PodSeries>, tier: Tier, agg: Aggregate, own: Span, wide: Span, t: int)
    ensures |Numbers(list, tier, agg, own, t)| <= Reporting(list, tier, own)
  {
    if list != [] {
      SomeReport(list[..|list| - 1], tier, agg, own, wide, t);
      NumberNeedsPoints(list[|list| - 1], tier, agg, own, t);
    }
  }

  // ----- what the index yields ---------------------------------------------------------------------

  /** The index is sorted, and a pod was last seen no earlier than its last row. */
  ghost predicate Indexed(pods: seq<Pod>, metric: string, labels: map<string, string>) {
    && (forall i, k :: 0 <= i < k < |pods| ==> pods[i].lastSeen >= pods[k].lastSeen)
    && (forall i :: 0 <= i < |pods| ==> RowsKept(pods[i], metric, labels))
  }

  ghost predicate RowsKept(pod: Pod, metric: string, labels: map<string, string>) {
    match pod.series(metric, labels)
    case None => true
    case Some(list) =>
      forall i, tier: Tier :: 0 <= i < |list| ==>
        Ascending(list[i].Rows(tier))
        && forall k :: 0 <= k < |list[i].Rows(tier)| ==> list[i].Rows(tier)[k].atMS <= UnixMilli(pod.lastSeen)
  }

  lemma {:induction false} RecentIsPrefix(pods: seq<Pod>, since: int, earlier: int)
    requires earlier <= since && forall i, k :: 0 <= i < k < |pods| ==> pods[i].lastSeen >= pods[k].lastSeen
    ensures var r, w := Recent(pods, since), Recent(pods, earlier);
            r <= w <= pods && forall i :: |r| <= i < |w| ==> w[i].lastSeen < since
  {
    if pods != [] && pods[0].lastSeen >= since {
      RecentIsPrefix(pods[1..], since, earlier);
    } else if pods != [] && pods[0].lastSeen >= earlier {
      RecentIsPrefix(pods[1..], since, earlier);
      forall i | 0 <= i < |Recent(pods, earlier)| ensures Recent(pods, earlier)[i].lastSeen < since {
        if i > 0 { assert Recent(pods, earlier)[i] == pods[1..][i - 1]; }
      }
    }
  }

  lemma {:induction false} KeptConcat(a: seq<Pod>, b: seq<Pod>, names: multiset<string>)
    ensures Kept(a + b, names) == Kept(a, names) + Kept(b, names)
    ensures forall p :: p in Kept(b, names) ==> p in b
  {
    if b == [] {
      assert a + b == a;
    } else {
      assert (a + b)[..|a + b| - 1] == a + b[..|b| - 1];
      KeptConcat(a, b[..|b| - 1], names);
    }
  }

  lemma {:induction false} GatheredConcat(a: seq<Pod>, b: seq<Pod>, metric: string, labels: map<string, string>)
    ensures Gathered(a + b, metric, labels)
            == match (Gathered(a, metric, labels), Gathered(b, metric, labels))
               case (Some(x), Some(y)) => Some(x + y)
               case _ => None
  {
    if b == [] {
      assert a + b == a;
      assert forall x: seq<PodSeries> :: x + [] == x;
    } else {
      var n := |b| - 1;
      assert (a + b)[..|a + b| - 1] == a + b[..n];
      GatheredConcat(a, b[..n], metric, labels);
      match (Gathered(a, metric, labels), Gathered(b[..n], metric, labels), b[n].series(metric, labels)) {
        case (Some(x), Some(y), Some(z)) => assert (x + y) + z == x + (y + z);
        case _ =>
      }
    }
  }

  /** What was gathered is made of the pods' own series. */
  lemma {:induction false} GatheredKeeps(
      pods: seq<Pod>, metric: string, labels: map<string, string>, tier: Tier, end: int)
    requires Gathered(pods, metric, labels).Some?
    requires forall p :: p in pods ==> RowsKept(p, metric, labels)
    ensures var list := Gathered(pods, metric, labels).value;
            && AllAscending(list, tier)
            && ((forall p :: p in pods ==> UnixMilli(p.lastSeen) < end) ==> Past(list, tier, end))
  {
    hide Ascending, Pod.Step;
    if pods != [] {
      var n := |pods| - 1;
      GatheredKeeps(pods[..n], metric, labels, tier, end);
      assert pods[n] in pods;
    }
  }

  /** Two reads of one selection: the earlier one's series go on after the later one's, and only with rows long past. */
  lemma ReadsGrow(pods: string -> seq<Pod>, clock: int, sel: Selection, from: int, earlier: int)
    returns (more: seq<PodSeries>)
    requires earlier <= from && Indexed(pods(sel.rows.deploymentID), sel.metric, sel.rows.labels)
    requires Resolve(pods, clock, sel, from).Reads? && Resolve(pods, clock, sel, earlier).Reads?
    ensures var r, w := Resolve(pods, clock, sel, from), Resolve(pods, clock, sel, earlier);
            && w.list == r.list + more
            && (forall tier: Tier :: Past(more, tier, UnixMilli(from)))
            && (forall tier: Tier :: AllAscending(w.list, tier))
  {
    hide Indexed, RowsKept, Ascending, AllAscending, Past, Kept, Gathered, Recent, StepOf, PickTier;
    var index := pods(sel.rows.deploymentID);
    var r, w := Capped(Recent(index, from - POD_LOOKBACK)), Capped(Recent(index, earlier - POD_LOOKBACK));
    var rest := CappedGrows(index, sel.metric, sel.rows.labels, from, earlier);
    KeptConcat(r, rest, sel.rows.pods);
    var a, b := Kept(r, sel.rows.pods), Kept(rest, sel.rows.pods);
    KeptConcat([], r, sel.rows.pods);
    assert [] + r == r;
    NothingGathered(sel.metric, sel.rows.labels);
    GatheredConcat(a, b, sel.metric, sel.rows.labels);
    NothingKept(sel.rows.pods);
    if a + b == [] {
      more := [];
      NoSeriesIsPast();
    } else {
      var x, y := Gathered(a, sel.metric, sel.rows.labels), Gathered(b, sel.metric, sel.rows.labels);
      more := y.value;
      var list := Resolve(pods, clock, sel, earlier).list;
      assert list == Gathered(a + b, sel.metric, sel.rows.labels).value;
      forall tier: Tier
        ensures Past(more, tier, UnixMilli(from)) && AllAscending(list, tier)
      {
        GatheredKeeps(a + b, sel.metric, sel.rows.labels, tier, UnixMilli(from));
        GatheredKeeps(b, sel.metric, sel.rows.labels, tier, UnixMilli(from));
      }
    }
  }

  lemma NothingGathered(metric: string, labels: map<string, string>)
    ensures Gathered([], metric, labels) == Some([])
  {}

  lemma NothingKept(names: multiset<string>)
    ensures Kept([], names) == []
  {}

  lemma NoSeriesIsPast()
    ensures forall tier: Tier, end: int :: Past([], tier, end)
    ensures forall tier: Tier :: AllAscending([], tier)
  {}

  /** The pods an earlier beginning adds were last seen well before the later one. */
  lemma CappedGrows(index: seq<Pod>, metric: string, labels: map<string, string>, from: int, earlier: int)
    returns (rest: seq<Pod>)
    requires earlier <= from && Indexed(index, metric, labels)
    ensures Capped(Recent(index, earlier - POD_LOOKBACK)) == Capped(Recent(index, from - POD_LOOKBACK)) + rest
    ensures forall p :: p in rest ==> UnixMilli(p.lastSeen) < UnixMilli(from)
    ensures forall p :: p in Capped(Recent(index, earlier - POD_LOOKBACK)) ==> RowsKept(p, metric, labels)
  {
    hide Recent, RowsKept;
    RecentIsPrefix(index, from - POD_LOOKBACK, earlier - POD_LOOKBACK);
    var r, w := Recent(index, from - POD_LOOKBACK), Recent(index, earlier - POD_LOOKBACK);
    rest := Capped(w)[|Capped(r)|..];
    assert Capped(r) <= Capped(w);
    forall p | p in rest ensures UnixMilli(p.lastSeen) < UnixMilli(from) {
      var i :| 0 <= i < |rest| && rest[i] == p;
      assert p == w[|Capped(r)| + i];
      SeenLongBefore(p.lastSeen, from);
    }
    forall p | p in Capped(w) ensures RowsKept(p, metric, labels) {
      var i :| 0 <= i < |Capped(w)| && Capped(w)[i] == p;
      assert w[i] == index[i] == p;
    }
  }

  lemma SeenLongBefore(seen: int, from: int)
    requires seen < from - POD_LOOKBACK
    ensures UnixMilli(seen) < UnixMilli(from)
  {}

  lemma GrownIsKindred(list: seq<PodSeries>, more: seq<PodSeries>, tier: Tier, own: Span, wide: Span)
    requires AllAscending(list + more, tier) && Past(more, tier, UnixMilli(own.from))
    requires SameStart(own, wide) || KeepsGrowth(list, tier, own)
    ensures Kindred(list + more, tier, own, wide)
  {
    hide Ascending, SameStart;
  }

  /** No counter that is read live was scraped at the very instant the span begins. */
  ghost predicate KeepsGrowth(list: seq<PodSeries>, tier: Tier, own: Span) {
    forall i :: 0 <= i < |list| ==> !LosesGrowth(list[i], tier, UnixMilli(own.from))
  }

  /** Nothing to read, or read from the same tier. */
  predicate OneTier(r: Resolved, w: Resolved) {
    r.Reads? && w.Reads? ==> r.list == [] || r.tier == w.tier
  }

  /** A sum over series one of which the longer span holds rows of and the shorter one does not. */
  ghost predicate SumsAbsent(w: Resolved, sel: Selection, own: Span, wide: Span) {
    w.Reads? && AcrossOf(sel.rows.across) == Some(Sum) && Absent(w.list, w.tier, own, wide)
  }

  /** What a longer read says of a bucket, exactly. */
  lemma PodReadingFromEarlier(pods: string -> seq<Pod>, clock: int, sel: Selection, own: Span, wide: Span, t: int)
    requires Within(own, wide, t) && Indexed(pods(sel.rows.deploymentID), sel.metric, sel.rows.labels)
    requires Resolve(pods, clock, sel, own.from).Reads? && Resolve(pods, clock, sel, wide.from).Reads?
    requires AcrossOf(sel.rows.across).Some?
    requires var r, w := Resolve(pods, clock, sel, own.from), Resolve(pods, clock, sel, wide.from);
             OneTier(r, w) && (SameStart(own, wide) || KeepsGrowth(r.list, r.tier, own))
    ensures var r, w := Resolve(pods, clock, sel, own.from), Resolve(pods, clock, sel, wide.from);
            PodReading(w, sel, wide, t)
            == if SumsAbsent(w, sel, own, wide) then SeriesBuffers.Reading(None, None) else PodReading(r, sel, own, t)
  {
    hide Resolve, AcrossOf, Across, Indexed, Absent, Kindred, SameStart, Within, Past;
    var r, w := Resolve(pods, clock, sel, own.from), Resolve(pods, clock, sel, wide.from);
    var across := AcrossOf(sel.rows.across).value;
    WithinOrder(own, wide, t);
    var more := ReadsGrow(pods, clock, sel, own.from, wide.from);
    GrownIsKindred(r.list, more, w.tier, own, wide);
    AcrossFromEarlier(r.list, more, w.tier, sel.aggregate, across, own, wide, t);
    if r.list == [] {
      NobodyAcross(r.tier, sel.aggregate, across, own, t);
      NobodyAcross(w.tier, sel.aggregate, across, own, t);
    }
  }

  lemma WithinOrder(own: Span, wide: Span, t: int)
    requires Within(own, wide, t)
    ensures wide.from <= own.from
  {}

  lemma NobodyAcross(tier: Tier, agg: Aggregate, across: Aggregate, span: Span, t: int)
    ensures Across([], tier, agg, across, span, t) == None
  {}

  // ----- inside the live reach ---------------------------------------------------------------------

  /**
   No more pods than one read carries, each reaching back live, scraped as finely as the watch steps,
   and resolved.
   */
  predicate InsideReach(index: seq<Pod>, clock: int, sel: Selection, from: int) {
    var kept := KeptBy(index, sel, from);
    && |SeenBy(index, from)| <= MAX_PODS
    && forall i :: 0 <= i < |kept| ==>
         Reaches(kept[i], clock, from) && kept[i].interval <= sel.step && Resolves(kept[i], sel)
  }

  lemma InsideIsServed(pods: string -> seq<Pod>, clock: int, sel: Selection, from: int)
    requires Askable(sel) && InsideReach(pods(sel.rows.deploymentID), clock, sel, from)
    ensures var r := Resolve(pods, clock, sel, from); r.Reads? && r.tier == Live
  {
    hide AcrossOf, Gathered, StepOf, Resolves, Reaches, Recent, Kept, Capped;
    RefusedExactly(pods, clock, sel, from);
  }

  /** What is inside the reach of an earlier beginning is inside that of a later one. */
  lemma InsideStays(index: seq<Pod>, clock: int, sel: Selection, from: int, earlier: int)
    requires earlier <= from && Indexed(index, sel.metric, sel.rows.labels) && InsideReach(index, clock, sel, earlier)
    ensures InsideReach(index, clock, sel, from)
  {
    hide Recent, RowsKept, Kept, Capped, Resolves;
    RecentIsPrefix(index, from - POD_LOOKBACK, earlier - POD_LOOKBACK);
    var rest := CappedGrows(index, sel.metric, sel.rows.labels, from, earlier);
    var r, w := Capped(SeenBy(index, from)), Capped(SeenBy(index, earlier));
    KeptConcat(r, rest, sel.rows.pods);
    var a, b := KeptBy(index, sel, from), KeptBy(index, sel, earlier);
    assert a <= b;
    forall i | 0 <= i < |a|
      ensures Reaches(a[i], clock, from) && a[i].interval <= sel.step && Resolves(a[i], sel)
    {
      assert b[i] == a[i] && Reaches(b[i], clock, earlier);
    }
  }

  // ----- a total that is known ---------------------------------------------------------------------

  /** The series has a value of its own in the bucket that starts at t. */
  predicate Speaks(s: PodSeries, tier: Tier, span: Span, t: int) {
    var ps := Newest(AllPoints(s, tier, UnixMilli(span.from), UnixMilli(span.to)));
    exists k :: 0 <= k < |ps| && UnixMilli(t) <= ps[k].atMS < UnixMilli(t + span.step) && ps[k].value.Some?
  }

  /** Some series has rows in the span, and every one that has speaks of the bucket. */
  predicate Complete(list: seq<PodSeries>, tier: Tier, span: Span, t: int) {
    && (exists i :: 0 <= i < |list| && HasPoints(list[i], tier, span))
    && (forall i :: 0 <= i < |list| && HasPoints(list[i], tier, span) ==> Speaks(list[i], tier, span, t))
  }

  lemma {:induction false} LandedSome(ps: seq<Scrape>, lo: int, hi: int)
    ensures Landed(ps, lo, hi) != [] <==> exists k :: 0 <= k < |ps| && lo <= ps[k].atMS < hi && ps[k].value.Some?
  {
    if ps != [] {
      var n := |ps| - 1;
      LandedSome(ps[..n], lo, hi);
      if k :| 0 <= k < |ps| && lo <= ps[k].atMS < hi && ps[k].value.Some? { assert k < n ==> ps[..n][k] == ps[k]; }
    }
  }

  lemma SpeakingIsANumber(s: PodSeries, tier: Tier, agg: Aggregate, span: Span, t: int)
    ensures Number(s, tier, agg, span, t).Some? <==> agg != Ratio && Speaks(s, tier, span, t)
  {
    hide Landed, Points, Newest;
    var ps := Newest(AllPoints(s, tier, UnixMilli(span.from), UnixMilli(span.to)));
    LandedSome(ps, UnixMilli(t), UnixMilli(t + span.step));
  }

  lemma {:induction false} NumbersFull(list: seq<PodSeries>, tier: Tier, agg: Aggregate, span: Span, t: int)
    requires agg != Ratio
    ensures |Numbers(list, tier, agg, span, t)| <= Reporting(list, tier, span)
    ensures |Numbers(list, tier, agg, span, t)| == Reporting(list, tier, span) <==>
              forall i :: 0 <= i < |list| && HasPoints(list[i], tier, span) ==> Speaks(list[i], tier, span, t)
    ensures Reporting(list, tier, span) > 0 <==> exists i :: 0 <= i < |list| && HasPoints(list[i], tier, span)
  {
    hide Number, HasPoints, Speaks;
    if list != [] {
      var n := |list| - 1;
      NumbersFull(list[..n], tier, agg, span, t);
      NumberNeedsPoints(list[n], tier, agg, span, t);
      SpeakingIsANumber(list[n], tier, agg, span, t);
      assert forall i :: 0 <= i < n ==> list[..n][i] == list[i];
    }
  }

  lemma NothingNumbered(list: seq<PodSeries>, tier: Tier, span: Span, t: int)
    ensures Numbers(list, tier, Ratio, span, t) == []
  {
    if list != [] {
      NothingNumbered(list[..|list| - 1], tier, span, t);
      SpeakingIsANumber(list[|list| - 1], tier, Ratio, span, t);
    }
  }

  /** A total is known exactly in the buckets every series of the span speaks of. */
  lemma TotalKnownExactly(list: seq<PodSeries>, tier: Tier, agg: Aggregate, span: Span, t: int)
    ensures Across(list, tier, agg, Sum, span, t).Some? <==> agg != Ratio && Complete(list, tier, span, t)
  {
    hide Numbers, Reporting, HasPoints, Speaks;
    if agg == Ratio {
      NothingNumbered(list, tier, span, t);
    } else {
      NumbersFull(list, tier, agg, span, t);
    }
  }

  // ----- the loops it runs as ----------------------------------------------------------------------

  /** Reads back to the newest row at or before the start, then replays forward, a counter's last reading in hand. */
  method Decode(s: PodSeries, tier: Tier, fromMS: int, toMS: int) returns (points: seq<Scrape>)
    requires Ascending(s.Rows(tier))
    ensures points == Newest(AllPoints(s, tier, fromMS, toMS))
  {
    var rows := s.Rows(tier);
    var first := |rows|;
    while first > 0 && (first == |rows| || rows[first].atMS > fromMS)
      invariant 0 <= first <= |rows| && forall k :: first < k < |rows| ==> rows[k].atMS > fromMS
    {
      first := first - 1;
    }
    points := [];
    var previous: Option<real> := None;
    PastHasNoPoints(s, tier, fromMS, toMS, first);
    for k := first to |rows|
      invariant points == Points(s, tier, fromMS, toMS, k)
      invariant k == first ==> previous == None
      invariant k > first && rows[k - 1].atMS <= toMS ==> previous == rows[k - 1].value || !(s.counter && tier == Live)
    {
      var row := rows[k];
      if row.atMS > toMS {
        continue;
      }
      var point: Option<real> := None;
      if s.counter && tier == Live {
        if row.value.Some? && previous.Some? {
          point := Some(Growth(previous.value, row.value.value));
        }
        previous := row.value;
      } else {
        point := row.value;
      }
      if row.atMS >= fromMS {
        points := points + [Scrape(row.atMS, point)];
      }
    }
    if |points| > MAX_POINTS {
      points := points[|points| - MAX_POINTS..];
    }
  }

  /** The i-th bucket of a grid, in milliseconds. */
  function BucketMS(grid: Series, i: int): int { grid.startMS + i * grid.StepMS() }

  lemma IndexIsBucket(grid: Series, atMS: int, i: nat)
    requires WholeMillis(grid.step) && i < |grid.values|
    ensures grid.IndexOf(atMS * NANOS_PER_MILLI) == Some(i) <==>
              BucketMS(grid, i) <= atMS < BucketMS(grid, i) + grid.StepMS()
  {
    var offset, step := atMS - grid.startMS, grid.StepMS();
    assert UnixMilli(atMS * NANOS_PER_MILLI) == atMS;
    var q := offset / step;
    assert offset == step * q + offset % step;
    MultipleIsLarge(step, q - i);
    MultipleIsLarge(step, i - q);
    assert step * (q - i) == step * q - i * step;
    assert step * (i - q) == i * step - step * q;
  }

  function Samples(m: map<int, seq<real>>, i: int): seq<real> { if i in m then m[i] else [] }

  method BucketSamples(grid: Series, points: seq<Scrape>) returns (out: map<int, seq<real>>)
    requires WholeMillis(grid.step)
    ensures forall i: nat :: i < |grid.values| ==>
              Samples(out, i) == Landed(points, BucketMS(grid, i), BucketMS(grid, i) + grid.StepMS())
  {
    out := map[];
    for k := 0 to |points|
      invariant forall i: nat :: i < |grid.values| ==>
                  Samples(out, i) == Landed(points[..k], BucketMS(grid, i), BucketMS(grid, i) + grid.StepMS())
    {
      var p := points[k];
      assert points[..k + 1][..k] == points[..k];
      forall i: nat | i < |grid.values|
        ensures grid.IndexOf(p.atMS * NANOS_PER_MILLI) == Some(i)
                <==> BucketMS(grid, i) <= p.atMS < BucketMS(grid, i) + grid.StepMS()
      {
        IndexIsBucket(grid, p.atMS, i);
      }
      if p.value.None? {
        continue;
      }
      var index := grid.IndexOf(p.atMS * NANOS_PER_MILLI);
      if index.None? {
        continue;
      }
      out := out[index.value := Samples(out, index.value) + [p.value.value]];
    }
    assert points[..|points|] == points;
  }

  /** The numbers the series that have any rows give for one bucket. */
  function NumbersIn(perSeries: seq<map<int, seq<real>>>, agg: Aggregate, i: int): seq<real> {
    if perSeries == [] then []
    else
      var n := |perSeries| - 1;
      NumbersIn(perSeries[..n], agg, i)
      + match Ok(Reduced(agg, Samples(perSeries[n], i))) case Some(v) => [v] case None => []
  }

  lemma OneMoreSeries(perSeries: seq<map<int, seq<real>>>, m: map<int, seq<real>>, agg: Aggregate, i: int)
    ensures NumbersIn(perSeries + [m], agg, i)
            == NumbersIn(perSeries, agg, i) + match Ok(Reduced(agg, Samples(m, i))) case Some(v) => [v] case None => []
  {
    assert (perSeries + [m])[..|perSeries|] == perSeries;
  }

  lemma BucketOfSpan(grid: Series, span: Span, i: int)
    requires WholeMillis(span.step) && grid.step == span.step && grid.startMS == UnixMilli(span.from)
    ensures BucketMS(grid, i) == UnixMilli(span.from + i * span.step)
    ensures BucketMS(grid, i) + grid.StepMS() == UnixMilli(span.from + i * span.step + span.step)
  {
    MilliShift(span.from, i, span.step);
    MilliShift(span.from, i + 1, span.step);
    assert (i + 1) * span.step == i * span.step + span.step;
  }

  /** Every series that has rows in the span, decoded and indexed by bucket. */
  method PerSeries(list: seq<PodSeries>, tier: Tier, agg: Aggregate, span: Span, grid: Series)
    returns (out: seq<map<int, seq<real>>>)
    requires WholeMillis(span.step) && grid.step == span.step && grid.startMS == UnixMilli(span.from)
    requires AllAscending(list, tier)
    ensures |out| == Reporting(list, tier, span)
    ensures forall i: nat :: i < |grid.values| ==>
              NumbersIn(out, agg, i) == Numbers(list, tier, agg, span, span.from + i * span.step)
  {
    hide Ascending, Landed, Points, NumbersIn, Reduced, Newest;
    out := [];
    NoNumbersIn(agg);
    for j := 0 to |list|
      invariant |out| == Reporting(list[..j], tier, span)
      invariant forall i: nat :: i < |grid.values| ==>
                  NumbersIn(out, agg, i) == Numbers(list[..j], tier, agg, span, span.from + i * span.step)
    {
      assert list[..j + 1][..j] == list[..j];
      var points := Decode(list[j], tier, UnixMilli(span.from), UnixMilli(span.to));
      NewestOfNone(AllPoints(list[j], tier, UnixMilli(span.from), UnixMilli(span.to)));
      var m := BucketSamples(grid, points);
      forall i: nat | i < |grid.values|
        ensures Number(list[j], tier, agg, span, span.from + i * span.step) == Ok(Reduced(agg, Samples(m, i)))
        ensures NumbersIn(out + [m], agg, i)
                == NumbersIn(out, agg, i) + match Ok(Reduced(agg, Samples(m, i))) case Some(v) => [v] case None => []
        ensures points == [] ==> Number(list[j], tier, agg, span, span.from + i * span.step) == None
      {
        BucketOfSpan(grid, span, i);
        OneMoreSeries(out, m, agg, i);
        NumberNeedsPoints(list[j], tier, agg, span, span.from + i * span.step);
      }
      if points == [] {
        continue;
      }
      out := out + [m];
    }
    assert list[..|list|] == list;
  }

  lemma NewestOfNone(ps: seq<Scrape>)
    ensures Newest(ps) == [] <==> ps == []
  {}

  lemma NoNumbersIn(agg: Aggregate)
    ensures forall i: int :: NumbersIn([], agg, i) == []
  {}

  method NumbersAt(perSeries: seq<map<int, seq<real>>>, agg: Aggregate, i: int) returns (values: seq<real>)
    ensures values == NumbersIn(perSeries, agg, i)
  {
    values := [];
    for j := 0 to |perSeries|
      invariant values == NumbersIn(perSeries[..j], agg, i)
    {
      assert perSeries[..j + 1][..j] == perSeries[..j];
      var samples := Samples(perSeries[j], i);
      if |samples| > 0 {
        var v := Reduce(agg, samples);
        if v.Success? {
          values := values + [v.value];
        }
      }
    }
    assert perSeries[..|perSeries|] == perSeries;
  }

  /** Collapses the series onto the grid: within each by the query's aggregate, then across them; nothing is filled. */
  method Rebucket(r: Resolved, sel: Selection, span: Span, n: nat) returns (s: Series)
    requires r.Reads? && AcrossOf(sel.rows.across).Some? && AllAscending(r.list, r.tier)
    requires WholeMillis(span.step) && span.to == span.from + n * span.step
    ensures SeriesBuffers.CutOf(s, t => PodReading(r, sel, span, t), span.from, n, span.step) && !s.filled
  {
    hide AcrossOf, AllAscending, Numbers, Reporting, NumbersIn, Reduced;
    var across := AcrossOf(sel.rows.across).value;
    BucketCountOfMultiple(span.from, n, span.step);
    var b := new SeriesBuffers.SeriesBuffer(span.from, span.to, span.step);
    var perSeries := PerSeries(r.list, r.tier, sel.aggregate, span, b.Snapshot());
    for i := 0 to n
      invariant b.Valid() && fresh(b) && fresh(b.values) && b.denominator == null && !b.filled
      invariant b.values.Length == n && b.step == span.step && b.startMS == UnixMilli(span.from)
      invariant forall k :: 0 <= k < n ==>
                  b.ReadingAt(k)
                  == if k < i then PodReading(r, sel, span, span.from + k * span.step)
                     else SeriesBuffers.Reading(None, None)
    {
      var values := NumbersAt(perSeries, sel.aggregate, i);
      assert values == Numbers(r.list, r.tier, sel.aggregate, span, span.from + i * span.step);
      if values != [] && (across != Sum || |values| == |perSeries|) {
        var v := Reduce(across, values);
        if v.Success? {
          b.Set(i, v.value);
        }
      }
    }
    s := b.Snapshot();
    forall k | 0 <= k < n
      ensures SeriesBuffers.Reading(At(s.values, k), At(s.denominator, k))
              == PodReading(r, sel, span, span.from + k * span.step)
    {
      assert b.ReadingAt(k) == PodReading(r, sel, span, span.from + k * span.step);
    }
  }
}
