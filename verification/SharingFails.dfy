/**
 Four watches on pod statistics, as an operator could define them, in which a one-bucket threshold
 answers differently because a sibling with the same key looks one bucket further back.
 */
module SharingFails {
  import opened Options
  import opened Verdicts
  import FetchKeys
  import opened Queries
  import opened SeriesGrid
  import SeriesBuffers
  import opened PodStatistics
  import opened Conditions
  import Locality
  import Watches
  import opened Planning
  import opened Coalescing

  const STEP := 60 * NANOS_PER_SECOND

  function ScopeAcross(across: string): FetchKeys.Scope { FetchKeys.Scope("d", "", "", "", [], "", [], map[], across) }

  /** Fires when the worst reading of the last k buckets, pods combined as told, is above four. */
  function Spec(id: string, across: string, k: int): Watches.ConditionSpec {
    Watches.ConditionSpec(id, Watches.Plain(Threshold(ThresholdParams(GT, 4.0, k, 1, 0.0, 0.0))),
                          PodStats, "m", Some(Max), ScopeAcross(across), false)
  }

  function Asked(id: string, across: string, k: int): Condition {
    Condition(id, PodStats, Metric("m", [Max, Avg, Sum, Min], false, false), Max, ScopeAcross(across), STEP,
              Threshold(ThresholdParams(GT, 4.0, k, 1, 0.0, 0.0)))
  }

  /** The service builds it as it stands. */
  lemma AskedIsBuilt(id: string, across: string, k: int)
    requires id != "" && k >= 1
    ensures Watches.NewCondition(Spec(id, across, k), STEP) == Success(Asked(id, across, k))
  {
    assert !Watches.HasSuffix("m", "_total");
  }

  /** The fetch the one-bucket threshold shares with a sibling over two buckets. */
  ghost function Shared(across: string, now: int): Query {
    SharedQuery([Asked("a", across, 1), Asked("b", across, 2)], now, 0)
  }

  function Own(across: string, now: int): Query { Asked("a", across, 1).QueryAt(now) }

  lemma SharedReachesBack(across: string, now: int)
    ensures var q := Own(across, now);
            Shared(across, now) == q.(from := q.from - STEP) && q.to == ReadableEnd(now, STEP) == q.from + STEP
  {
    hide KeyOf;
    var cs := [Asked("a", across, 1), Asked("b", across, 2)];
    var qs := QueriesOf(cs, now);
    assert qs[0] == cs[0].QueryAt(now) && qs[1] == cs[1].QueryAt(now);
    RespannedKey(qs[1], qs[0]);
    var key := KeyOf(qs[0]);
    assert Earliest(qs, key, 0, qs[0].from) == qs[0].from;
    assert Earliest(qs, key, 1, qs[0].from) == qs[0].from;
    assert Earliest(qs, key, 2, qs[0].from) == qs[1].from;
  }

  /** What the one-bucket threshold says fetching for itself, when no data is taken for health. */
  ghost function Alone(store: Store, across: string, now: int): Truth {
    hide ErrorOf;
    FetchIsReadable(store, Own(across, now));
    Answer(Asked("a", across, 1), now, NoDataOK, FetchOf(store, Own(across, now))).verdict
  }

  lemma SharedIsReadable(store: Store, across: string, now: int)
    ensures var f := FetchOf(store, Shared(across, now)); f.error.None? ==> Readable(f.series)
  {
    hide FetchOf, SharedQuery;
    SharedReachesBack(across, now);
    FetchIsReadable(store, Shared(across, now));
  }

  /** What it says of the fetch it shares. */
  ghost function WithSibling(store: Store, across: string, now: int): Truth {
    hide ErrorOf, Shared, FetchOf;
    SharedIsReadable(store, across, now);
    Answer(Asked("a", across, 1), now, NoDataOK, FetchOf(store, Shared(across, now))).verdict
  }

  /** The same pods whatever the deployment. */
  function Everywhere(index: seq<Pod>): string -> seq<Pod> { _ => index }

  function StoreOf(index: seq<Pod>, now: int): Store {
    Store((_, _) => SeriesBuffers.Reading(None, None), _ => false, Everywhere(index), now)
  }

  lemma AloneByBucket(store: Store, across: string, now: int)
    requires ErrorOf(store, Own(across, now)).None?
    ensures var v := ReadAt(store, Own(across, now), Own(across, now).from).value;
            Alone(store, across, now) == if v.Some? && v.value > 4.0 then True else False
  {
    hide ErrorOf, ReadAt, FetchOf, Answer;
    SharedReachesBack(across, now);
    LastBucketDecides(across, now, store, Own(across, now), 1);
  }

  lemma SharedByBucket(store: Store, across: string, now: int)
    requires ErrorOf(store, Shared(across, now)).None?
    ensures var v := ReadAt(store, Shared(across, now), Own(across, now).from).value;
            WithSibling(store, across, now) == if v.Some? && v.value > 4.0 then True else False
  {
    hide ErrorOf, ReadAt, FetchOf, Answer, SharedQuery;
    SharedReachesBack(across, now);
    LastBucketDecides(across, now, store, Shared(across, now), 2);
  }

  lemma RefusedUndecided(store: Store, across: string, now: int)
    requires ErrorOf(store, Shared(across, now)).Some?
    ensures WithSibling(store, across, now) == Unknown
  {
    hide ErrorOf, FetchOf, Answer, SharedQuery;
    RefusedIsUnknown(Asked("a", across, 1), now, NoDataOK, store, Shared(across, now));
  }

  /** What the threshold says of a fetch, in terms of its last bucket. */
  lemma LastBucketDecides(across: string, now: int, store: Store, p: Query, m: nat)
    requires Serves(p, Own(across, now), 1, m) && p.source == PodStats && ErrorOf(store, p).None?
    ensures var v := ReadAt(store, p, Own(across, now).from).value;
            Answer(Asked("a", across, 1), now, NoDataOK, FetchOf(store, p)).verdict
            == if v.Some? && v.value > 4.0 then True else False
  {
    hide ErrorOf, ReadAt, CutFrom;
    var c, q := Asked("a", across, 1), Own(across, now);
    ServesSpans(p, q, 1, m, 0);
    CutFromIsCut(store, p, m);
    var s := CutFrom(store, p);
    Locality.WindowEndsAt(s, p.from, m, now, 1);
    assert q.from == p.from + (m - 1) * p.step;
    assert SeriesBuffers.Reading(At(s.values, m - 1), At(s.denominator, m - 1)) == ReadAt(store, p, q.from);
    LastOnly(s.values, m);
  }

  lemma LastOnly(c: Column, m: nat)
    requires m >= 1 && |c| == m
    ensures KnownIn(c, m - 1, m) == match c[m - 1] case Some(v) => [v] case None => []
  {
    assert KnownIn(c, m - 1, m - 1) == [];
  }

  // ----- small indexes -------------------------------------------------------------------------------

  lemma {:induction false} AllRecent(index: seq<Pod>, since: int)
    requires forall i :: 0 <= i < |index| ==> index[i].lastSeen >= since
    ensures Recent(index, since) == index
  {
    if index != [] { AllRecent(index[1..], since); }
  }

  lemma {:induction false} AllKept(index: seq<Pod>)
    ensures Kept(index, multiset{}) == index
  {
    if index != [] { AllKept(index[..|index| - 1]); }
  }

  /** A small index of pods all seen lately is read whole. */
  lemma ReadWhole(index: seq<Pod>, clock: int, sel: Selection, from: int)
    requires sel.rows.pods == multiset{} && sel.rows.deploymentID != "" && AcrossOf(sel.rows.across).Some?
    requires 0 < |index| <= MAX_PODS && forall i :: 0 <= i < |index| ==> index[i].lastSeen >= from
    ensures var tier := PickTier(index, clock, from);
            Resolve(Everywhere(index), clock, sel, from)
            == match Gathered(index, sel.metric, sel.rows.labels)
               case None => Denied(Refused)
               case Some(list) => if StepOf(index, tier) > sel.step then Denied(Coarse) else Reads(tier, list)
  {
    hide AcrossOf, Gathered, StepOf, PickTier;
    AllRecent(index, from - POD_LOOKBACK);
    AllKept(index);
  }

  function PodOf(lastSeen: int, reach: int, rollupInterval: int, s: PodSeries): Pod {
    Pod("p", lastSeen, reach, NANOS_PER_SECOND, rollupInterval, (_, _) => Some([s]))
  }

  lemma OnePod(pod: Pod, s: PodSeries, clock: int, from: int)
    requires pod.series("m", map[]) == Some([s])
    ensures Gathered([pod], "m", map[]) == Some([s])
    ensures PickTier([pod], clock, from) == if Reaches(pod, clock, from) then Live else Rollup
    ensures forall tier: Tier :: StepOf([pod], tier) == if pod.Step(tier) > 0 then pod.Step(tier) else 0
  {
    assert [pod][..0] == [];
    assert Gathered([], "m", map[]) == Some([]);
    assert [] + [s] == [s];
    if Reaches(pod, clock, from) {
      assert forall i :: 0 <= i < |[pod]| ==> Reaches([pod][i], clock, from);
    } else {
      assert !Reaches([pod][0], clock, from);
    }
  }

  lemma OneSeries(s: PodSeries, tier: Tier, across: Aggregate, span: PodStatistics.Span, t: int)
    ensures Reporting([s], tier, span) == if HasPoints(s, tier, span) then 1 else 0
    ensures Across([s], tier, Max, across, span, t)
            == match Number(s, tier, Max, span, t)
               case Some(v) => Ok(Reduced(across, [v]))
               case None => None
  {
    hide Number, HasPoints;
    assert [s][..0] == [];
    NumberNeedsPoints(s, tier, Max, span, t);
    assert Numbers([], tier, Max, span, t) == [] && Reporting([], tier, span) == 0;
  }

  /** A series with one row. */
  lemma OneRow(s: PodSeries, tier: Tier, span: PodStatistics.Span, t: int, row: Scrape)
    requires s.Rows(tier) == [row] && !s.counter && row.value.Some?
    ensures HasPoints(s, tier, span) <==> UnixMilli(span.from) <= row.atMS <= UnixMilli(span.to)
    ensures Number(s, tier, Max, span, t)
            == if UnixMilli(span.from) <= row.atMS <= UnixMilli(span.to)
                  && UnixMilli(t) <= row.atMS < UnixMilli(t + span.step) then row.value else None
  {
    hide Points, Landed, Reduced;
    var a, b, lo, hi := UnixMilli(span.from), UnixMilli(span.to), UnixMilli(t), UnixMilli(t + span.step);
    OnePoint(s, tier, a, b, row);
    LandedOne(row, lo, hi);
    NothingReduces();
    var landed := Landed(Newest(AllPoints(s, tier, a, b)), lo, hi);
    assert landed == if a <= row.atMS <= b && lo <= row.atMS < hi then [row.value.value] else [];
    assert Number(s, tier, Max, span, t) == Ok(Reduced(Max, landed));
    OneReduces(row.value.value);
  }

  lemma OnePoint(s: PodSeries, tier: Tier, a: int, b: int, row: Scrape)
    requires s.Rows(tier) == [row] && !s.counter
    ensures AllPoints(s, tier, a, b) == if a <= row.atMS <= b then [row] else []
  {
    assert Points(s, tier, a, b, 0) == [];
  }

  lemma LandedOne(p: Scrape, lo: int, hi: int)
    ensures Landed([], lo, hi) == []
    ensures Landed([p], lo, hi) == if lo <= p.atMS < hi && p.value.Some? then [p.value.value] else []
  {
    assert [p][..0] == [];
  }

  /** The instants of the examples, in milliseconds. */
  lemma Instants(now: int)
    ensures var t := ReadableEnd(now, STEP);
            && UnixMilli(t - STEP) == UnixMilli(t) - 60_000 && UnixMilli(t - 2 * STEP) == UnixMilli(t) - 120_000
            && t <= now < t + 200 * NANOS_PER_SECOND
  {
    var t := ReadableEnd(now, STEP);
    MilliShift(t, -1, STEP);
    MilliShift(t, -2, STEP);
  }

  lemma OwnSelection(across: string, now: int)
    ensures var sel := Own(across, now).Selected();
            && sel.rows.pods == multiset{} && sel.rows.deploymentID == "d" && sel.rows.labels == map[]
            && sel.rows.across == across
            && sel.metric == "m" && sel.aggregate == Max && sel.step == STEP && sel.source == PodStats
            && Shared(across, now).Selected() == sel
    ensures AcrossOf("") == Some(Max) && AcrossOf("sum") == Some(Sum)
  {
    hide SharedQuery;
    SharedReachesBack(across, now);
  }

  /** How a fetch from one pod with one series reads a bucket. */
  lemma OnePodRead(now: int, index: seq<Pod>, s: PodSeries, q: Query, tier: Tier, t: int)
    requires q.Selected() == Own("", now).Selected() && |index| == 1 && index[0].lastSeen >= q.from
    requires index[0].series("m", map[]) == Some([s]) && 0 < index[0].Step(tier)
    requires tier == if Reaches(index[0], now, q.from) then Live else Rollup
    ensures var store := StoreOf(index, now);
            if index[0].Step(tier) > STEP then ErrorOf(store, q) == Some(Coarse)
            else
              && ErrorOf(store, q) == None
              && ReadAt(store, q, t) == SeriesBuffers.Reading(Number(s, tier, Max, SpanOf(q), t), None)
  {
    hide Resolve, Number, HasPoints, Reaches, AcrossOf, Across, Everywhere;
    OwnSelection("", now);
    assert q.source == q.Selected().source;
    assert index == [index[0]];
    OnePod(index[0], s, now, q.from);
    ReadWhole(index, now, q.Selected(), q.from);
    OneSeries(s, tier, Max, SpanOf(q), t);
    var v := Number(s, tier, Max, SpanOf(q), t);
    if v.Some? { OneReduces(v.value); }
  }

  lemma OneReduces(v: real)
    ensures Reduced(Max, [v]) == Success(v) && Reduced(Sum, [v]) == Success(v)
  {
    hide Least;
    assert [v][..0] == [];
    assert SumOf([]) == 0.0;
    assert Greatest([v]) == v;
  }

  // ----- refused for reaching back -------------------------------------------------------------------

  /**
   A live tier that reaches the threshold's bucket and no further: alone it fires, and shared with the
   sibling it is refused as too coarse, undecided.
   */
  lemma LongBaselineIsRefused(now: int) returns (store: Store)
    ensures Alone(store, "", now) == True && WithSibling(store, "", now) == Unknown
  {
    hide ErrorOf, ReadAt, Alone, WithSibling, Number, Reaches, Shared, Own, Near;
    var s := PodSeries(false, [Scrape(UnixMilli(Own("", now).from), Some(5.0))], []);
    var pod := Near(now, 900 * NANOS_PER_SECOND, s);
    store := StoreOf([pod], now);
    FiresAlone(now, 900 * NANOS_PER_SECOND, s);
    FarIsRolledUp(now, 900 * NANOS_PER_SECOND, s);
    OwnSelection("", now);
    OnePodRead(now, [pod], s, Shared("", now), Rollup, 0);
    RefusedUndecided(store, "", now);
  }

  /** A pod seen just now whose live tier reaches the threshold's own bucket and no further. */
  function Near(now: int, rollupInterval: int, s: PodSeries): Pod {
    PodOf(now, now - Own("", now).from, rollupInterval, s)
  }

  lemma FarIsRolledUp(now: int, rollupInterval: int, s: PodSeries)
    ensures var pod := Near(now, rollupInterval, s);
            && pod.series("m", map[]) == Some([s])
            && pod.Step(Live) == NANOS_PER_SECOND && pod.Step(Rollup) == rollupInterval
            && Reaches(pod, now, Own("", now).from) && !Reaches(pod, now, Shared("", now).from)
            && pod.lastSeen >= Own("", now).from >= Shared("", now).from
  {
    hide SharedQuery;
    SharedReachesBack("", now);
    Instants(now);
  }

  lemma FiresAlone(now: int, rollupInterval: int, s: PodSeries)
    requires !s.counter && s.live == [Scrape(UnixMilli(Own("", now).from), Some(5.0))]
    ensures Alone(StoreOf([Near(now, rollupInterval, s)], now), "", now) == True
  {
    hide ErrorOf, ReadAt, Alone, Number, Reaches, Shared, Near;
    var q, pod := Own("", now), Near(now, rollupInterval, s);
    FarIsRolledUp(now, rollupInterval, s);
    SharedReachesBack("", now);
    Instants(now);
    OnePodRead(now, [pod], s, q, Live, q.from);
    OneRow(s, Live, SpanOf(q), q.from, s.live[0]);
    AloneByBucket(StoreOf([pod], now), "", now);
  }

  // ----- answered from another tier ------------------------------------------------------------------

  /**
   The same pod with rollups as fine as the step: shared, the threshold is judged on what they kept, and
   does not fire.
   */
  lemma RollupsAnswerOtherwise(now: int) returns (store: Store)
    ensures Alone(store, "", now) == True && WithSibling(store, "", now) == False
  {
    hide ErrorOf, ReadAt, Alone, WithSibling, Number, Reaches, Shared, Near;
    var q := Own("", now);
    var s := PodSeries(false, [Scrape(UnixMilli(q.from), Some(5.0))], [Scrape(UnixMilli(q.from), Some(3.0))]);
    var pod := Near(now, STEP, s);
    store := StoreOf([pod], now);
    FiresAlone(now, STEP, s);
    FarIsRolledUp(now, STEP, s);
    OwnSelection("", now);
    SharedReachesBack("", now);
    Instants(now);
    OnePodRead(now, [pod], s, Shared("", now), Rollup, q.from);
    OneRow(s, Rollup, SpanOf(Shared("", now)), q.from, s.rollup[0]);
    SharedByBucket(store, "", now);
  }

  // ----- a growth that only the longer read has --------------------------------------------------------

  lemma TwoPoints(s: PodSeries, from: int, to: int, a: int, b: int, x: real, y: real)
    requires s.counter && s.live == [Scrape(a, Some(x)), Scrape(b, Some(y))] && a < b <= to && x <= y
    ensures AllPoints(s, Live, from, to)
            == if from <= a then [Scrape(a, None), Scrape(b, Some(y - x))]
               else if from < b then [Scrape(b, Some(y - x))]
               else if from == b then [Scrape(b, None)]
               else []
  {
    assert Points(s, Live, from, to, 0) == [];
    assert Points(s, Live, from, to, 1) == if from <= a then [Scrape(a, None)] else [];
  }

  lemma TwoRows(s: PodSeries, span: PodStatistics.Span, t: int, a: int, b: int, x: real, y: real)
    requires s.counter && s.live == [Scrape(a, Some(x)), Scrape(b, Some(y))] && a < b && x <= y
    requires UnixMilli(t) == b < UnixMilli(t + span.step) && b <= UnixMilli(span.to)
    ensures Number(s, Live, Max, span, t) == if UnixMilli(span.from) < b then Some(y - x) else None
  {
    hide Points, Landed, Reduced;
    TwoPoints(s, UnixMilli(span.from), UnixMilli(span.to), a, b, x, y);
    var lo, hi := UnixMilli(t), UnixMilli(t + span.step);
    LandedOne(Scrape(b, Some(y - x)), lo, hi);
    LandedOne(Scrape(b, None), lo, hi);
    LandedOne(Scrape(a, None), lo, hi);
    LandedConcat([Scrape(a, None)], [Scrape(b, Some(y - x))], lo, hi);
    assert [Scrape(a, None)] + [Scrape(b, Some(y - x))] == [Scrape(a, None), Scrape(b, Some(y - x))];
    NothingReduces();
    OneReduces(y - x);
    var landed := Landed(Newest(AllPoints(s, Live, UnixMilli(span.from), UnixMilli(span.to))), lo, hi);
    assert landed == if UnixMilli(span.from) < b then [y - x] else [];
  }

  lemma NothingReduces()
    ensures Reduced(Max, []) == Failure(NoSamples)
  {}

  /**
   A counter scraped at the very instant the threshold's bucket opens: alone its growth there is
   unknown, and shared it is measured from the scrape before and fires.
   */
  lemma BoundaryGrowthIsLost(now: int) returns (store: Store)
    ensures Alone(store, "", now) == False && WithSibling(store, "", now) == True
  {
    hide ErrorOf, ReadAt, Alone, WithSibling, Number, Reaches, Shared, PodOf;
    var q := Own("", now);
    var at := UnixMilli(q.from);
    var s := PodSeries(true, [Scrape(at - 1000, Some(0.0)), Scrape(at, Some(5.0))], []);
    var pod := PodOf(now, 1000 * NANOS_PER_SECOND, STEP, s);
    store := StoreOf([pod], now);
    OwnSelection("", now);
    SharedReachesBack("", now);
    Instants(now);
    LongReach(now, s);
    OnePodRead(now, [pod], s, q, Live, q.from);
    OnePodRead(now, [pod], s, Shared("", now), Live, q.from);
    TwoRows(s, SpanOf(q), q.from, at - 1000, at, 0.0, 5.0);
    TwoRows(s, SpanOf(Shared("", now)), q.from, at - 1000, at, 0.0, 5.0);
    AloneByBucket(store, "", now);
    SharedByBucket(store, "", now);
  }

  lemma LongReach(now: int, s: PodSeries)
    ensures var pod := PodOf(now, 1000 * NANOS_PER_SECOND, STEP, s);
            && pod.series("m", map[]) == Some([s]) && pod.Step(Live) == NANOS_PER_SECOND
            && Reaches(pod, now, Own("", now).from) && Reaches(pod, now, Shared("", now).from)
            && pod.lastSeen >= Own("", now).from >= Shared("", now).from
  {
    hide SharedQuery;
    SharedReachesBack("", now);
    Instants(now);
  }

  // ----- a pod that has gone ---------------------------------------------------------------------------

  lemma {:induction false} TwoPods(index: seq<Pod>, s: PodSeries, gone: PodSeries, clock: int, from: int)
    requires |index| == 2 && index[0].series("m", map[]) == Some([s]) && index[1].series("m", map[]) == Some([gone])
    requires Reaches(index[0], clock, from) && Reaches(index[1], clock, from)
    requires index[0].interval == index[1].interval == NANOS_PER_SECOND
    ensures Gathered(index, "m", map[]) == Some([s, gone])
    ensures PickTier(index, clock, from) == Live && StepOf(index, Live) == NANOS_PER_SECOND
  {
    hide Reaches;
    var one := index[..1];
    assert one == [index[0]];
    OnePod(index[0], s, clock, from);
    assert [s] + [gone] == [s, gone];
    assert forall i :: 0 <= i < |index| ==> Reaches(index[i], clock, from);
  }

  lemma {:induction false} TwoPodRead(now: int, index: seq<Pod>, s: PodSeries, gone: PodSeries, q: Query)
    requires q.Selected() == Own("sum", now).Selected()
    requires |index| == 2 && index[0].series("m", map[]) == Some([s]) && index[1].series("m", map[]) == Some([gone])
    requires Reaches(index[0], now, q.from) && Reaches(index[1], now, q.from)
    requires index[0].interval == index[1].interval == NANOS_PER_SECOND
    requires index[0].lastSeen >= q.from && index[1].lastSeen >= q.from
    ensures ErrorOf(StoreOf(index, now), q) == None && ResolveOf(StoreOf(index, now), q) == Reads(Live, [s, gone])
  {
    hide Resolve, Reaches, AcrossOf, Gathered, PickTier, StepOf, Own, Everywhere;
    OwnSelection("sum", now);
    assert q.source == q.Selected().source;
    TwoPods(index, s, gone, now, q.from);
    ReadWhole(index, now, q.Selected(), q.from);
  }

  /** A sum over one series with a number and one that is silent. */
  lemma TwoSeries(s: PodSeries, gone: PodSeries, span: PodStatistics.Span, t: int, v: real)
    requires Number(s, Live, Max, span, t) == Some(v) && Number(gone, Live, Max, span, t) == None
    ensures Across([s, gone], Live, Max, Sum, span, t) == if HasPoints(gone, Live, span) then None else Some(v)
  {
    hide Number, HasPoints;
    var list := [s, gone];
    assert list[..1] == [s] && [s][..0] == [];
    NumberNeedsPoints(s, Live, Max, span, t);
    assert Numbers([], Live, Max, span, t) == [] && Reporting([], Live, span) == 0;
    assert Numbers([s], Live, Max, span, t) == [v] && Reporting([s], Live, span) == 1;
    assert Numbers(list, Live, Max, span, t) == [v];
    OneReduces(v);
  }

  /**
   A deployment summed over its pods, one of which was replaced a minute ago: alone the total of the
   pods that are there fires, and shared the pod that is gone makes every total unknown, which the
   policy takes for health.
   */
  lemma GonePodSilences(now: int) returns (store: Store)
    ensures Alone(store, "sum", now) == True && WithSibling(store, "sum", now) == False
  {
    hide ErrorOf, ResolveOf, Alone, WithSibling, Number, HasPoints, Reaches, Shared, PodOf, Across;
    var q, p := Own("sum", now), Shared("sum", now);
    var s := PodSeries(false, [Scrape(UnixMilli(q.from), Some(5.0))], []);
    var gone := PodSeries(false, [Scrape(UnixMilli(p.from), Some(1.0))], []);
    var index := [PodOf(now, 1000 * NANOS_PER_SECOND, STEP, s), PodOf(q.from, 1000 * NANOS_PER_SECOND, STEP, gone)];
    store := StoreOf(index, now);
    OwnSelection("sum", now);
    SharedReachesBack("sum", now);
    Instants(now);
    LongReachOfTwo(now, s, gone);
    TwoPodRead(now, index, s, gone, q);
    TwoPodRead(now, index, s, gone, p);
    OneRow(s, Live, SpanOf(q), q.from, s.live[0]);
    OneRow(s, Live, SpanOf(p), q.from, s.live[0]);
    OneRow(gone, Live, SpanOf(q), q.from, gone.live[0]);
    OneRow(gone, Live, SpanOf(p), q.from, gone.live[0]);
    TwoSeries(s, gone, SpanOf(q), q.from, 5.0);
    TwoSeries(s, gone, SpanOf(p), q.from, 5.0);
    AloneByBucket(store, "sum", now);
    SharedByBucket(store, "sum", now);
  }

  lemma LongReachOfTwo(now: int, s: PodSeries, gone: PodSeries)
    ensures var q, p := Own("sum", now), Shared("sum", now);
            var a := PodOf(now, 1000 * NANOS_PER_SECOND, STEP, s);
            var b := PodOf(q.from, 1000 * NANOS_PER_SECOND, STEP, gone);
            && a.series("m", map[]) == Some([s]) && b.series("m", map[]) == Some([gone])
            && a.interval == b.interval == NANOS_PER_SECOND && a.lastSeen >= q.from && b.lastSeen >= q.from
            && Reaches(a, now, q.from) && Reaches(b, now, q.from) && Reaches(a, now, p.from) && Reaches(b, now, p.from)
  {
    hide SharedQuery;
    SharedReachesBack("sum", now);
    Instants(now);
  }
}
