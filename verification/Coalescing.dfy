/**
 The promise behind sharing a fetch, that a condition says what it would have said fetching for
 itself: always kept for spans and log lines, and for pod statistics under an exact condition.
 */
module Coalescing {
  import opened Options
  import opened Verdicts
  import opened Queries
  import opened SeriesGrid
  import opened SeriesBuffers
  import opened PodStatistics
  import opened Conditions
  import Locality
  import opened Watches
  import opened Planning

  /** A condition of a built watch, as the theorems below need it. */
  ghost predicate OnGridStep(c: Condition, step: int) {
    c.WellFormed() && c.step == step && step >= NANOS_PER_SECOND && WholeMillis(step)
  }

  ghost predicate Uniform(cs: seq<Condition>, step: int) {
    && (forall i :: 0 <= i < |cs| ==> WholeMillis(cs[i].step))
    && (forall i :: 0 <= i < |cs| ==> OnGridStep(cs[i], step))
  }

  /** The store keeps steps in whole seconds, so a built watch's conditions share a whole-millisecond step. */
  lemma BuiltIsUniform(b: Built, w: Watch)
    requires BuiltFrom(b, w) && WholeMillis(w.step)
    ensures Uniform(b.conditions, w.step)
  {
    hide NewCondition;
    forall i | 0 <= i < |b.conditions|
      ensures OnGridStep(b.conditions[i], w.step) && WholeMillis(b.conditions[i].step)
    {
      var r := NewCondition(w.conditions[i], w.step);
      assert r.value == b.conditions[i];
    }
  }

  lemma QuerySpan(c: Condition, now: int, step: int)
    requires OnGridStep(c, step)
    ensures c.Span() >= 1
    ensures var q := c.QueryAt(now);
            && q.step == step && q.to == ReadableEnd(now, step)
            && q.to == q.from + c.Span() * step
  {}

  lemma CutFromIsCut(store: Store, q: Query, n: nat)
    requires ErrorOf(store, q).None? && q.step >= 1 && q.to == q.from + n * q.step
    ensures CutOf(CutFrom(store, q), t => ReadAt(store, q, t), q.from, n, q.step)
  {
    hide ReadAt, ErrorOf;
    BucketCountOfMultiple(q.from, n, q.step);
  }

  /** A planned fetch reaches back at least as far as any condition it serves, and ends where it does. */
  lemma PlannedReach(p: Query, cs: seq<Condition>, now: int, step: int, key: string, first: nat, j: nat)
    returns (m: nat)
    requires Uniform(cs, step) && j < |cs|
    requires UnionOf(p, QueriesOf(cs, now), |cs|, key, first) && key == KeyOf(QueriesOf(cs, now)[j])
    ensures p.step == step && p.to == cs[j].QueryAt(now).to
    ensures p.to == p.from + m * step && m >= cs[j].Span()
    ensures p.Selected() == cs[j].QueryAt(now).Selected()
  {
    hide Condition.Span, Condition.QueryAt, Condition.WellFormed, Query.Key;
    var qs := QueriesOf(cs, now);
    var a :| Mentions(qs, |cs|, key, a) && qs[a].from == p.from;
    var b :| Mentions(qs, |cs|, key, b) && qs[b].to == p.to;
    QuerySpan(cs[a], now, step);
    QuerySpan(cs[b], now, step);
    QuerySpan(cs[j], now, step);
    QuerySpan(cs[first], now, step);
    assert Mentions(qs, |cs|, key, j);
    m := cs[a].Span();
    LongerReach(step, m, cs[j].Span());
    QueryKeyExact(qs[first], qs[j]);
  }

  lemma LongerReach(step: int, m: int, n: int)
    requires step > 0 && m * step >= n * step
    ensures m >= n
  {
    MultipleIsLarge(step, m - n);
    assert step * (m - n) == m * step - n * step;
  }

  // ----- what sharing changes, and when --------------------------------------------------------------

  /** p fetches what q does, begins a whole number of steps earlier, and ends with it. */
  ghost predicate Serves(p: Query, q: Query, n: int, m: nat) {
    && p.Selected() == q.Selected() && p.to == q.to
    && q.step >= 1 && q.to == q.from + n * q.step && p.to == p.from + m * q.step && 0 <= n <= m
  }

  /** Both fetches are refused alike, or every bucket of q reads in p as it does alone. */
  ghost predicate Alike(store: Store, p: Query, q: Query, n: nat) {
    && ErrorOf(store, p) == ErrorOf(store, q)
    && (ErrorOf(store, q).None? ==>
          forall i :: 0 <= i < n ==> ReadAt(store, p, q.from + i * q.step) == ReadAt(store, q, q.from + i * q.step))
  }

  /** The index the pods of q are found in is in order. */
  ghost predicate IndexedFor(store: Store, q: Query) {
    q.source == PodStats ==> Indexed(store.pods(q.scope.deploymentID), q.metric, q.scope.labels)
  }

  /** Both fetches read from one tier, and no live counter was scraped at the very instant q begins. */
  ghost predicate OneTable(store: Store, p: Query, q: Query) {
    q.source == PodStats ==>
      var r := ResolveOf(store, q);
      OneTier(r, ResolveOf(store, p)) && (p.from == q.from || (r.Reads? ==> KeepsGrowth(r.list, r.tier, SpanOf(q))))
  }

  /** A total over pods that p finds one too many of for any bucket of q to be complete. */
  ghost predicate Blanks(store: Store, p: Query, q: Query) {
    q.source == PodStats && SumsAbsent(ResolveOf(store, p), q.Selected(), SpanOf(q), SpanOf(p))
  }

  /** Some bucket of q is one that every series of its span speaks of. */
  ghost predicate SomeComplete(store: Store, q: Query, n: nat) {
    var r := ResolveOf(store, q);
    r.Reads? && q.aggregate != Ratio
    && exists i :: 0 <= i < n && Complete(r.list, r.tier, SpanOf(q), q.from + i * q.step)
  }

  /** The pods the fetches of q's selection are read from. */
  function IndexOf(store: Store, q: Query): seq<Pod> { store.pods(q.scope.deploymentID) }

  /** Whether a read begun at an instant is served, by what is asked and by the index of pods. */
  predicate Served(store: Store, q: Query, from: int) {
    var sel := q.Selected();
    && !store.refused(sel)
    && (q.source == PodStats ==>
          && Askable(sel) && Resolvable(IndexOf(store, q), sel, from)
          && !Overreaches(IndexOf(store, q), store.clock, sel, from))
  }

  /** Beginning where p does and beginning where q does run into the same refusal, or into none. */
  predicate RefusedAlike(store: Store, p: Query, q: Query) {
    var sel, index := q.Selected(), IndexOf(store, q);
    store.refused(sel) || q.source != PodStats || !Askable(sel)
    || (&& (Resolvable(index, sel, p.from) <==> Resolvable(index, sel, q.from))
        && (Resolvable(index, sel, q.from) ==>
              (Overreaches(index, store.clock, sel, p.from) <==> Overreaches(index, store.clock, sel, q.from))))
  }

  lemma MultipleOrder(step: int, n: int, m: int)
    requires step >= 1 && n <= m
    ensures n * step <= m * step
  {
    MultipleIsLarge(step, m - n);
    assert step * (m - n) == m * step - n * step;
  }

  lemma ServesSpans(p: Query, q: Query, n: nat, m: nat, i: nat)
    requires Serves(p, q, n, m)
    ensures PodStatistics.Within(SpanOf(q), SpanOf(p), q.from + i * q.step)
    ensures p.source == q.source && p.scope.deploymentID == q.scope.deploymentID && p.step == q.step
  {
    MultipleOrder(q.step, n, m);
    MultipleOrder(q.step, 0, i);
    assert p.Selected().step == q.Selected().step;
  }

  /** What a shared fetch says of a bucket of q, exactly. */
  lemma SharedReading(store: Store, p: Query, q: Query, n: nat, m: nat, i: nat)
    requires Serves(p, q, n, m) && IndexedFor(store, q) && OneTable(store, p, q)
    requires ErrorOf(store, p).None? && ErrorOf(store, q).None?
    ensures var t := q.from + i * q.step;
            ReadAt(store, p, t) == if Blanks(store, p, q) then Reading(None, None) else ReadAt(store, q, t)
  {
    hide Resolve, PodReading, PodStatistics.Within, SumsAbsent, KeepsGrowth, Indexed;
    ServesSpans(p, q, n, m, i);
    if q.source == PodStats {
      ReadsHaveAcross(store.pods, store.clock, q.Selected(), q.from);
      PodReadingFromEarlier(store.pods, store.clock, q.Selected(), SpanOf(q), SpanOf(p), q.from + i * q.step);
    }
  }

  /** A fetch is refused for what is asked and what the index holds, and for nothing else. */
  lemma ErrorExactly(store: Store, q: Query)
    ensures ErrorOf(store, q).None? <==> Served(store, q, q.from)
    ensures ErrorOf(store, q).Some? ==> ErrorOf(store, q) == Some(Coarse) || ErrorOf(store, q) == Some(Refused)
    ensures ErrorOf(store, q) == Some(Refused) <==>
              || store.refused(q.Selected())
              || (q.source == PodStats
                  && !(Askable(q.Selected()) && Resolvable(IndexOf(store, q), q.Selected(), q.from)))
  {
    hide Resolve, Askable, Resolvable, Overreaches;
    RefusedExactly(store.pods, store.clock, q.Selected(), q.from);
  }

  lemma RefusalsExactly(store: Store, p: Query, q: Query, n: nat, m: nat)
    requires Serves(p, q, n, m)
    ensures ErrorOf(store, p) == ErrorOf(store, q) <==> RefusedAlike(store, p, q)
  {
    hide ErrorOf, Askable, Resolvable, Overreaches;
    ServesSpans(p, q, n, m, 0);
    ErrorExactly(store, p);
    ErrorExactly(store, q);
  }

  /** A blanked total was known exactly where every series of q's own span spoke of a bucket. */
  lemma KnownTotals(store: Store, p: Query, q: Query, i: nat)
    requires ErrorOf(store, q).None? && Blanks(store, p, q)
    ensures var r, t := ResolveOf(store, q), q.from + i * q.step;
            r.Reads? && (ReadAt(store, q, t) != Reading(None, None) <==>
                           q.aggregate != Ratio && Complete(r.list, r.tier, SpanOf(q), t))
  {
    hide Resolve, Complete, Across, Absent;
    ReadsHaveAcross(store.pods, store.clock, q.Selected(), q.from);
    var r := ResolveOf(store, q);
    TotalKnownExactly(r.list, r.tier, q.aggregate, SpanOf(q), q.from + i * q.step);
  }

  /**
   Sharing changes what a condition is given exactly when it runs into a refusal its own beginning
   does not, or when it blanks a total over pods that its own span has every series for: the series
   missing from that span need only have reported somewhere in a sibling's baseline.
   */
  lemma SharedAlikeExactly(store: Store, p: Query, q: Query, n: nat, m: nat)
    requires Serves(p, q, n, m) && IndexedFor(store, q) && OneTable(store, p, q)
    ensures Alike(store, p, q, n) <==>
              && RefusedAlike(store, p, q)
              && (Served(store, q, q.from) ==> !(Blanks(store, p, q) && SomeComplete(store, q, n)))
  {
    hide Serves, IndexedFor, OneTable, ErrorOf, ReadAt, Blanks, RefusedAlike, Served, Complete;
    RefusalsExactly(store, p, q, n, m);
    ErrorExactly(store, q);
    if ErrorOf(store, p) == ErrorOf(store, q) && ErrorOf(store, q).None? {
      forall i | 0 <= i < n
        ensures var t := q.from + i * q.step;
                ReadAt(store, p, t) == if Blanks(store, p, q) then Reading(None, None) else ReadAt(store, q, t)
      {
        SharedReading(store, p, q, n, m, i);
      }
      if Blanks(store, p, q) {
        forall i | 0 <= i < n
          ensures var r, t := ResolveOf(store, q), q.from + i * q.step;
                  r.Reads? && (ReadAt(store, q, t) != Reading(None, None) <==>
                                 q.aggregate != Ratio && Complete(r.list, r.tier, SpanOf(q), t))
        {
          KnownTotals(store, p, q, i);
        }
      }
    }
  }

  /** Inside the live reach, with no total and no counter scraped as q begins, sharing changes nothing. */
  lemma InsideReachSharesAlike(store: Store, p: Query, q: Query, n: nat, m: nat)
    requires Serves(p, q, n, m) && q.source == PodStats && IndexedFor(store, q)
    requires InsideReach(IndexOf(store, q), store.clock, q.Selected(), p.from)
    requires AcrossOf(q.scope.across) != Some(Sum)
    requires p.from == q.from || (ResolveOf(store, q).Reads? ==> KeepsGrowth(ResolveOf(store, q).list, Live, SpanOf(q)))
    ensures Alike(store, p, q, n)
  {
    hide Resolve, Askable, InsideReach, Resolvable, Overreaches, Indexed, AcrossOf, KeepsGrowth, Absent,
         ReadAt, Complete;
    var sel := q.Selected();
    ServesSpans(p, q, n, m, 0);
    if store.refused(sel) || !Askable(sel) {
      RefusalsExactly(store, p, q, n, m);
      ErrorExactly(store, q);
    } else {
      InsideStays(IndexOf(store, q), store.clock, sel, q.from, p.from);
      InsideIsServed(store.pods, store.clock, sel, q.from);
      InsideIsServed(store.pods, store.clock, sel, p.from);
      RefusedExactly(store.pods, store.clock, sel, q.from);
      RefusedExactly(store.pods, store.clock, sel, p.from);
      SharedAlikeExactly(store, p, q, n, m);
    }
  }

  /** Spans and log lines can always be shared. */
  lemma TablesAreAlike(store: Store, p: Query, q: Query, n: nat, m: nat)
    requires Serves(p, q, n, m) && q.source != PodStats
    ensures Alike(store, p, q, n)
  {
    ServesSpans(p, q, n, m, 0);
  }

  // ----- what a condition makes of it ----------------------------------------------------------------

  /** Given the same, a condition answers the same. */
  lemma SharedFetchAnswersAlike(c: Condition, now: int, policy: NoDataPolicy, store: Store, p: Query, m: nat)
    requires c.WellFormed() && WholeMillis(c.step) && Serves(p, c.QueryAt(now), c.Span(), m)
    requires Alike(store, p, c.QueryAt(now), c.Span())
    ensures Answer(c, now, policy, FetchOf(store, p)) == Answer(c, now, policy, FetchOf(store, c.QueryAt(now)))
  {
    hide Judge, CutFrom, CutOf, Condition.Span, Condition.WellFormed, ErrorOf, ReadAt;
    var q, n := c.QueryAt(now), c.Span();
    if ErrorOf(store, q).None? {
      ServesSpans(p, q, n, m, 0);
      CutFromIsCut(store, q, n);
      CutReadsAlike(store, p, q, n);
      CutFromIsCut(store, p, m);
      QueryReach(c, now);
      Locality.SpanIsPositive(c);
      assert (m - n) * c.step == m * c.step - n * c.step;
      var reading := t => ReadAt(store, p, t);
      Locality.JudgedAlikeOnWider(c, now, CutFrom(store, q), CutFrom(store, p), reading, p.from, m, m - n);
    }
  }

  lemma CutReadsAlike(store: Store, p: Query, q: Query, n: nat)
    requires ErrorOf(store, p).None? && ErrorOf(store, q).None? && Alike(store, p, q, n)
    requires CutOf(CutFrom(store, q), t => ReadAt(store, q, t), q.from, n, q.step)
    ensures CutOf(CutFrom(store, q), t => ReadAt(store, p, t), q.from, n, q.step)
  {
    hide ErrorOf, ReadAt, CutFrom;
  }

  /**
   Nor does it matter how the stretch was filled in: any series that is a cut of the fetch's own
   readings, such as one scanned or collapsed bucket by bucket, is judged the same.
   */
  lemma AnyCutIsJudgedAlike(c: Condition, now: int, store: Store, p: Query, s: Series, m: nat)
    requires c.WellFormed() && WholeMillis(c.step) && Serves(p, c.QueryAt(now), c.Span(), m)
    requires ErrorOf(store, p).None? && CutOf(s, t => ReadAt(store, p, t), p.from, m, c.step)
    ensures Judge(c, now, s) == Judge(c, now, CutFrom(store, p))
  {
    hide Judge, CutFrom, Condition.Span, Condition.WellFormed, ErrorOf, ReadAt;
    var q, n := c.QueryAt(now), c.Span();
    ServesSpans(p, q, n, m, 0);
    CutFromIsCut(store, p, m);
    QueryReach(c, now);
    Locality.SpanIsPositive(c);
    assert (m - n) * c.step == m * c.step - n * c.step;
    var reading := t => ReadAt(store, p, t);
    var own := CutShort(s, m - n, n);
    assert CutOf(own, reading, q.from, n, c.step) by { ShortIsCut(s, reading, p.from, m, c.step, m - n, n); }
    Locality.JudgedAlikeOnWider(c, now, own, s, reading, p.from, m, m - n);
    Locality.JudgedAlikeOnWider(c, now, own, CutFrom(store, p), reading, p.from, m, m - n);
  }

  /** The last n buckets of a series, d in. */
  function CutShort(s: Series, d: nat, n: nat): Series {
    Series(s.step, s.startMS + d * s.StepMS(),
           seq(n, i => At(s.values, d + i)), seq(n, i => At(s.denominator, d + i)), s.filled)
  }

  lemma ShortIsCut(s: Series, reading: int -> Reading, from: int, m: nat, step: int, d: nat, n: nat)
    requires WholeMillis(step) && CutOf(s, reading, from, m, step) && d + n <= m
    ensures CutOf(CutShort(s, d, n), reading, from + d * step, n, step)
  {
    MilliShift(from, d, step);
    forall i | 0 <= i < n
      ensures Reading(At(CutShort(s, d, n).values, i), At(CutShort(s, d, n).denominator, i))
              == reading(from + d * step + i * step)
    {
      assert from + d * step + i * step == from + (d + i) * step;
    }
  }

  /** A refused fetch decides nothing, whatever the watch makes of no data. */
  lemma RefusedIsUnknown(c: Condition, now: int, policy: NoDataPolicy, store: Store, p: Query)
    requires ErrorOf(store, p).Some?
    ensures Answer(c, now, policy, FetchOf(store, p)).verdict == Unknown
  {}

  lemma NothingKnown(c: Column, lo: int, hi: int)
    requires forall i :: 0 <= i < |c| ==> c[i] == None
    ensures KnownIn(c, lo, hi) == [] && ActiveCount(c, lo, hi) == 0
    decreases if lo < hi then hi - lo else 0
  {
    if lo < hi { NothingKnown(c, lo, hi - 1); }
  }

  lemma ThresholdOnNothing(c: Condition, p: ThresholdParams, now: int, s: Series)
    requires Readable(s) && forall i :: 0 <= i < |s.values| ==> s.values[i] == None
    ensures JudgeThreshold(c, p, now, s).noData
  {
    hide WindowIndices, KnownIn, SumOf, Bound, StretchOf, Reduced;
    var w := WindowIndices(s, now, p.windowBuckets);
    NothingKnown(s.values, w.from, w.to);
  }

  lemma SpikeOnNothing(c: Condition, p: SpikeParams, now: int, s: Series)
    requires Readable(s) && !c.metric.ratio && c.agg != Ratio
    requires forall i :: 0 <= i < |s.values| ==> s.values[i] == None
    ensures JudgeSpike(c, p, now, s).noData
  {
    hide WindowIndices, KnownIn, SumOf, StretchOf, Reduced, RolledAt, Compared;
    var obs := WindowIndices(s, now, p.windowBuckets).to - 1;
    if 0 <= obs < |s.values| { RolledNothing(c, p, s, obs); }
  }

  lemma RolledNothing(c: Condition, p: SpikeParams, s: Series, i: int)
    requires c.agg != Ratio && forall k :: 0 <= k < |s.values| ==> s.values[k] == None
    ensures RolledAt(s, c.agg, p.windowBuckets, p.minSamples, i) == None
  {
    hide KnownIn, Reduced;
    NothingKnown(s.values, i - AtLeastOne(p.windowBuckets) + 1, i + 1);
  }

  lemma AbsenceOnNothing(c: Condition, p: AbsenceParams, now: int, s: Series)
    requires Readable(s) && p.minBaseline >= 1 && forall i :: 0 <= i < |s.values| ==> s.values[i] == None
    ensures var out := JudgeAbsence(c, p, now, s); out.noData || out.verdict == False
  {
    hide WindowIndices, ActiveCount, StretchOf;
    var w := WindowIndices(s, now, p.forBuckets);
    NothingKnown(s.values, w.from, w.to);
    NothingKnown(s.values, w.from - p.baselineBuckets, w.from);
  }

  /** What each kind of condition says of a series nothing is known of. */
  lemma JudgedOnNothing(c: Condition, now: int, s: Series)
    requires c.WellFormed() && !c.metric.ratio && c.agg != Ratio && Readable(s)
    requires forall i :: 0 <= i < |s.values| ==> s.values[i] == None
    ensures var out := Judge(c, now, s);
            if c.params.Absence? && !out.noData then out.verdict == False else out.noData
  {
    hide JudgeThreshold, JudgeSpike, JudgeAbsence;
    match c.params {
      case Threshold(p) => ThresholdOnNothing(c, p, now, s);
      case Spike(p) => SpikeOnNothing(c, p, now, s);
      case Absence(p) => AbsenceOnNothing(c, p, now, s);
    }
  }

  /**
   A blanked total is answered by the watch's reading of no data, or for an absence by silence,
   whatever the pods report: under the policy that takes no data for health, with a plain no.
   */
  lemma BlankedAnswer(c: Condition, now: int, policy: NoDataPolicy, store: Store, p: Query, m: nat)
    requires c.WellFormed() && WholeMillis(c.step) && !c.metric.ratio && c.agg != Ratio
    requires Serves(p, c.QueryAt(now), c.Span(), m) && IndexedFor(store, c.QueryAt(now))
    requires OneTable(store, p, c.QueryAt(now)) && Blanks(store, p, c.QueryAt(now))
    requires ErrorOf(store, p).None? && ErrorOf(store, c.QueryAt(now)).None?
    ensures var v := Answer(c, now, policy, FetchOf(store, p)).verdict;
            v == policy.Truth() || (c.params.Absence? && v == False)
  {
    hide Judge, Condition.Span, Condition.WellFormed, ErrorOf, ReadAt, CutFrom, IndexedFor, OneTable, Blanks;
    var q, n := c.QueryAt(now), c.Span();
    ServesSpans(p, q, n, m, 0);
    CutFromIsCut(store, p, m);
    QueryReach(c, now);
    Locality.SpanIsPositive(c);
    assert (m - n) * c.step == m * c.step - n * c.step;
    var reading := t => ReadAt(store, p, t);
    var own := CutShort(CutFrom(store, p), m - n, n);
    ShortIsCut(CutFrom(store, p), reading, p.from, m, c.step, m - n, n);
    Locality.JudgedAlikeOnWider(c, now, own, CutFrom(store, p), reading, p.from, m, m - n);
    forall i | 0 <= i < n ensures own.values[i] == None {
      SharedReading(store, p, q, n, m, i);
      assert Reading(At(own.values, i), At(own.denominator, i)) == reading(q.from + i * c.step);
    }
    JudgedOnNothing(c, now, own);
  }

  lemma QueryReach(c: Condition, now: int)
    requires c.WellFormed()
    ensures c.QueryAt(now).to == c.QueryAt(now).from + c.Span() * c.step
    ensures c.QueryAt(now).step == c.step
  {}

  // ----- a whole evaluation --------------------------------------------------------------------------

  lemma FetchIsReadable(store: Store, q: Query)
    requires WholeMillis(q.step)
    ensures FetchOf(store, q).error.None? ==> Readable(FetchOf(store, q).series)
  {
    hide ErrorOf, ReadAt;
  }

  /** The earliest beginning among the first n queries that carry the key. */
  ghost function Earliest(qs: seq<Query>, key: string, n: nat, from: int): int
    requires n <= |qs|
  {
    if n == 0 then from
    else
      var r := Earliest(qs, key, n - 1, from);
      if KeyOf(qs[n - 1]) == key && qs[n - 1].from < r then qs[n - 1].from else r
  }

  lemma {:induction false} EarliestIsLeast(qs: seq<Query>, key: string, n: nat, from: int)
    requires n <= |qs|
    ensures Earliest(qs, key, n, from) <= from
    ensures forall j :: Mentions(qs, n, key, j) ==> Earliest(qs, key, n, from) <= qs[j].from
    ensures Earliest(qs, key, n, from) == from
            || exists j :: Mentions(qs, n, key, j) && qs[j].from == Earliest(qs, key, n, from)
  {
    hide KeyOf;
    if n > 0 {
      var r := Earliest(qs, key, n - 1, from);
      EarliestIsLeast(qs, key, n - 1, from);
      assert forall j :: Mentions(qs, n, key, j) <==>
                           Mentions(qs, n - 1, key, j) || (j == n - 1 && KeyOf(qs[j]) == key);
    }
  }

  /** The fetch that answers condition j: its own, begun as early as any that shares its key. */
  ghost function SharedQuery(cs: seq<Condition>, now: int, j: nat): Query
    requires j < |cs|
  {
    var qs := QueriesOf(cs, now);
    qs[j].(from := Earliest(qs, KeyOf(qs[j]), |qs|, qs[j].from))
  }

  /** What each condition says when it fetches for itself. */
  function AloneAnswers(b: Built, now: int, store: Store): (os: seq<Outcome>)
    requires forall i :: 0 <= i < |b.conditions| ==> WholeMillis(b.conditions[i].step)
    ensures |os| == |b.conditions|
    ensures forall i :: 0 <= i < |os| ==>
              os[i] == Answer(b.conditions[i], now, b.watch.onNoData, FetchOf(store, b.conditions[i].QueryAt(now)))
  {
    FetchesAreReadable(store, QueriesOf(b.conditions, now));
    seq(|b.conditions|, i requires 0 <= i < |b.conditions| =>
          Answer(b.conditions[i], now, b.watch.onNoData, FetchOf(store, QueriesOf(b.conditions, now)[i])))
  }

  lemma FetchesAreReadable(store: Store, qs: seq<Query>)
    ensures forall i :: 0 <= i < |qs| && WholeMillis(qs[i].step) && FetchOf(store, qs[i]).error.None? ==>
              Readable(FetchOf(store, qs[i]).series)
  {
    hide FetchOf;
    forall i | 0 <= i < |qs| && WholeMillis(qs[i].step) && FetchOf(store, qs[i]).error.None?
      ensures Readable(FetchOf(store, qs[i]).series)
    {
      FetchIsReadable(store, qs[i]);
    }
  }

  /** What each condition says of the fetch it shares. */
  ghost function SharedAnswers(b: Built, now: int, store: Store): (os: seq<Outcome>)
    requires forall i :: 0 <= i < |b.conditions| ==> WholeMillis(b.conditions[i].step)
    ensures |os| == |b.conditions|
    ensures forall i :: 0 <= i < |os| ==>
              os[i] == Answer(b.conditions[i], now, b.watch.onNoData, FetchOf(store, SharedQuery(b.conditions, now, i)))
  {
    var qs := seq(|b.conditions|, i requires 0 <= i < |b.conditions| => SharedQuery(b.conditions, now, i));
    FetchesAreReadable(store, qs);
    seq(|b.conditions|, i requires 0 <= i < |b.conditions| =>
          Answer(b.conditions[i], now, b.watch.onNoData, FetchOf(store, qs[i])))
  }

  /** A condition's shared fetch gives it what its own would. */
  ghost predicate SharesAlike(b: Built, now: int, store: Store, j: nat)
    requires j < |b.conditions| && b.conditions[j].Span() >= 0
  {
    Alike(store, SharedQuery(b.conditions, now, j), b.conditions[j].QueryAt(now), b.conditions[j].Span())
  }

  lemma DistinctPlans(plan: seq<Query>, firsts: seq<nat>, qs: seq<Query>)
    requires Coalesces(plan, firsts, qs)
    ensures forall i, k :: 0 <= i < k < |plan| ==> KeyOf(plan[i]) != KeyOf(plan[k])
  {
    hide KeyOf;
    forall i, k | 0 <= i < k < |plan| ensures KeyOf(plan[i]) != KeyOf(plan[k]) {
      assert FirstAt(qs, KeyOf(plan[i]), firsts[i]) && FirstAt(qs, KeyOf(plan[k]), firsts[k]);
    }
  }

  lemma PlannedSteps(plan: seq<Query>, firsts: seq<nat>, cs: seq<Condition>, now: int, step: int)
    requires Uniform(cs, step) && Coalesces(plan, firsts, QueriesOf(cs, now))
    ensures forall i :: 0 <= i < |plan| ==> plan[i].step >= NANOS_PER_SECOND
  {
    hide KeyOf, Condition.WellFormed, Condition.Span;
    forall i | 0 <= i < |plan| ensures plan[i].step >= NANOS_PER_SECOND {
      assert UnionOf(plan[i], QueriesOf(cs, now), |cs|, KeyOf(plan[i]), firsts[i]);
      QuerySpan(cs[firsts[i]], now, step);
    }
  }

  /** A planned query is the shared query of every condition it serves, but for how their scopes are written. */
  lemma PlannedIsShared(p: Query, cs: seq<Condition>, now: int, step: int, key: string, first: nat, j: nat)
    requires Uniform(cs, step) && j < |cs|
    requires UnionOf(p, QueriesOf(cs, now), |cs|, key, first) && key == KeyOf(QueriesOf(cs, now)[j])
    ensures var q := SharedQuery(cs, now, j);
            p.Selected() == q.Selected() && p.step == q.step == step && p.from == q.from && p.to == q.to
  {
    hide Condition.Span, Condition.QueryAt, Condition.WellFormed, Query.Key;
    var qs := QueriesOf(cs, now);
    var m := PlannedReach(p, cs, now, step, key, first, j);
    var from := Earliest(qs, key, |qs|, qs[j].from);
    EarliestIsLeast(qs, key, |qs|, qs[j].from);
    assert Mentions(qs, |qs|, key, j);
    if from != qs[j].from {
      var k :| Mentions(qs, |qs|, key, k) && qs[k].from == from;
    }
    QuerySpan(cs[j], now, step);
  }

  /** A fetch is of what is selected, over a span; how the scope was written is nothing to it. */
  lemma FetchIsOfSelection(store: Store, p: Query, q: Query)
    requires p.Selected() == q.Selected() && p.step == q.step && p.from == q.from && p.to == q.to
    ensures FetchOf(store, p) == FetchOf(store, q)
  {
    hide Resolve, PodReading;
    assert p.Selected().source == q.Selected().source && p.Selected().aggregate == q.Selected().aggregate;
    if ErrorOf(store, q).None? {
      assert ErrorOf(store, p).None?;
      assert forall t: int :: ReadAt(store, p, t) == ReadAt(store, q, t);
    }
  }

  lemma SharedServes(cs: seq<Condition>, now: int, step: int, j: nat) returns (m: nat)
    requires Uniform(cs, step) && j < |cs|
    ensures Serves(SharedQuery(cs, now, j), cs[j].QueryAt(now), cs[j].Span(), m)
  {
    hide Condition.Span, Condition.QueryAt, Condition.WellFormed, Query.Key, KeyOf;
    var qs := QueriesOf(cs, now);
    var from := SharedQuery(cs, now, j).from;
    EarliestIsLeast(qs, KeyOf(qs[j]), |qs|, qs[j].from);
    QuerySpan(cs[j], now, step);
    if from == qs[j].from {
      m := cs[j].Span();
    } else {
      var k :| Mentions(qs, |qs|, KeyOf(qs[j]), k) && qs[k].from == from;
      QuerySpan(cs[k], now, step);
      m := cs[k].Span();
      LongerReach(step, m, cs[j].Span());
    }
  }

  lemma PlannedFor(plan: seq<Query>, firsts: seq<nat>, cs: seq<Condition>, now: int, store: Store, step: int, j: nat)
    returns (i: nat)
    requires Uniform(cs, step) && j < |cs| && Coalesces(plan, firsts, QueriesOf(cs, now))
    ensures i < |plan| && KeyOf(plan[i]) == KeyOf(cs[j].QueryAt(now)) && plan[i].step == step
    ensures FetchOf(store, plan[i]) == FetchOf(store, SharedQuery(cs, now, j))
  {
    hide UnionOf, KeyOf, FetchOf, Condition.Span, Condition.QueryAt, Condition.WellFormed, SharedQuery;
    var qs := QueriesOf(cs, now);
    i :| 0 <= i < |plan| && KeyOf(plan[i]) == KeyOf(qs[j]);
    PlannedIsShared(plan[i], cs, now, step, KeyOf(plan[i]), firsts[i], j);
    FetchIsOfSelection(store, plan[i], SharedQuery(cs, now, j));
  }

  /** What condition j finds under its key is the fetch it shares. */
  ghost predicate Files(cs: seq<Condition>, now: int, store: Store, fetched: map<string, Fetched>, j: nat)
    requires j < |cs|
  {
    var key := KeyOf(cs[j].QueryAt(now));
    key in fetched && fetched[key] == FetchOf(store, SharedQuery(cs, now, j))
  }

  lemma PlanFiles(
      cs: seq<Condition>, now: int, store: Store, step: int, plan: seq<Query>, firsts: seq<nat>,
      fetched: map<string, Fetched>, j: nat)
    requires Uniform(cs, step) && j < |cs| && Coalesces(plan, firsts, QueriesOf(cs, now))
    requires forall i :: 0 <= i < |plan| ==>
               KeyOf(plan[i]) in fetched && fetched[KeyOf(plan[i])] == FetchOf(store, plan[i])
    ensures Files(cs, now, store, fetched, j)
  {
    hide Coalesces, KeyOf, FetchOf, Condition.QueryAt, SharedQuery, Uniform, QueriesOf;
    var i := PlannedFor(plan, firsts, cs, now, store, step, j);
  }

  lemma FiledIsServed(b: Built, now: int, store: Store, step: int, fetched: map<string, Fetched>, j: nat)
    requires Uniform(b.conditions, step) && j < |b.conditions| && Files(b.conditions, now, store, fetched, j)
    ensures Servable(b.conditions[j], now, fetched)
    ensures OutcomeFor(b.conditions[j], b.watch.onNoData, now, fetched) == SharedAnswers(b, now, store)[j]
  {
    hide KeyOf, Answer, FetchOf, Condition.QueryAt, Condition.WellFormed, Earliest;
    QuerySpan(b.conditions[j], now, step);
    FetchIsReadable(store, SharedQuery(b.conditions, now, j));
  }

  /** When every condition's fetch is shared alike, the watch comes to what its conditions say alone. */
  lemma SharedAlikeIsAlone(b: Built, now: int, store: Store, step: int, j: nat)
    requires Uniform(b.conditions, step) && j < |b.conditions| && b.conditions[j].Span() >= 0
    requires SharesAlike(b, now, store, j)
    ensures SharedAnswers(b, now, store)[j] == AloneAnswers(b, now, store)[j]
  {
    hide Alike, Serves, Answer, FetchOf, Condition.Span, Condition.QueryAt, Condition.WellFormed, SharedQuery;
    var m := SharedServes(b.conditions, now, step, j);
    SharedFetchAnswersAlike(b.conditions[j], now, b.watch.onNoData, store, SharedQuery(b.conditions, now, j), m);
  }

  /** Every condition is given what it would have had, or is refused. */
  ghost predicate AlikeOrRefused(b: Built, now: int, store: Store, step: int)
    requires Uniform(b.conditions, step)
  {
    SpansArePositive(b.conditions, step);
    forall j :: 0 <= j < |b.conditions| ==>
      SharesAlike(b, now, store, j) || ErrorOf(store, SharedQuery(b.conditions, now, j)).Some?
  }

  lemma SpansArePositive(cs: seq<Condition>, step: int)
    requires Uniform(cs, step)
    ensures forall j :: 0 <= j < |cs| ==> cs[j].Span() >= 1
  {
    hide Condition.Span;
    forall j | 0 <= j < |cs| ensures cs[j].Span() >= 1 { QuerySpan(cs[j], 0, step); }
  }

  /** So a refusal for reaching back too far can leave a watch undecided and never change what it decides. */
  lemma RefusalsNeverFlip(b: Built, now: int, store: Store, step: int)
    requires Uniform(b.conditions, step) && b.watch.combinator != Unrecognised && AlikeOrRefused(b, now, store, step)
    ensures var shared := Combined(b.watch.combinator, VerdictsOf(SharedAnswers(b, now, store)));
            shared != Unknown ==> shared == Combined(b.watch.combinator, VerdictsOf(AloneAnswers(b, now, store)))
  {
    hide Answer, FetchOf, Condition.Span, Condition.QueryAt, Condition.WellFormed, SharedQuery, Alike,
         Combined, ErrorOf;
    SpansArePositive(b.conditions, step);
    var shared, alone := SharedAnswers(b, now, store), AloneAnswers(b, now, store);
    forall j | 0 <= j < |b.conditions| ensures shared[j] == alone[j] || shared[j].verdict == Unknown {
      if SharesAlike(b, now, store, j) {
        SharedAlikeIsAlone(b, now, store, step, j);
      } else {
        RefusedIsUnknown(b.conditions[j], now, b.watch.onNoData, store, SharedQuery(b.conditions, now, j));
      }
    }
    if Combined(b.watch.combinator, VerdictsOf(shared)) != Unknown {
      ResolvingNeverFlips(b.watch.combinator, VerdictsOf(shared), VerdictsOf(alone));
    }
  }

  /**
   One evaluation of a watch from plan to verdict: each condition judged on the fetch it shares, the
   answers folded once. Where sharing changes nothing this is what they say fetching one by one, and
   where it can only refuse, no verdict is reached that they would not have reached.
   */
  method RunWatch(b: Built, w: Watch, now: int, store: Store) returns (eval: Evaluation)
    requires BuiltFrom(b, w) && WholeMillis(w.step)
    ensures Uniform(b.conditions, w.step)
    ensures eval == Summed(w.combinator, now, SharedAnswers(b, now, store))
    ensures (forall j :: 0 <= j < |b.conditions| ==> b.conditions[j].Span() >= 0 && SharesAlike(b, now, store, j)) ==>
              eval == Summed(w.combinator, now, AloneAnswers(b, now, store))
    ensures AlikeOrRefused(b, now, store, w.step) && eval.verdict != Unknown ==>
              eval.verdict == Summed(w.combinator, now, AloneAnswers(b, now, store)).verdict
  {
    hide Coalesces, OutcomeFor, Servable, Answer, FetchOf, Files, BuiltFrom, Condition.QueryAt, SharedQuery,
         SharesAlike, AlikeOrRefused, Combined, StatusOf, Condition.Span;
    BuiltIsUniform(b, w);
    BuiltIsItsWatch(b, w);
    var plan := Plan(b.conditions, now);
    ghost var firsts: seq<nat> :| Coalesces(plan, firsts, QueriesOf(b.conditions, now));
    DistinctPlans(plan, firsts, QueriesOf(b.conditions, now));
    PlannedSteps(plan, firsts, b.conditions, now, w.step);
    var fetched := FetchAll(plan, store);
    forall j | 0 <= j < |b.conditions|
      ensures Servable(b.conditions[j], now, fetched)
      ensures OutcomeFor(b.conditions[j], b.watch.onNoData, now, fetched) == SharedAnswers(b, now, store)[j]
    {
      PlanFiles(b.conditions, now, store, w.step, plan, firsts, fetched, j);
      FiledIsServed(b, now, store, w.step, fetched, j);
    }
    eval := Planning.Evaluate(b, now, fetched);
    assert OutcomesFor(b, now, fetched) == SharedAnswers(b, now, store);
    if forall j :: 0 <= j < |b.conditions| ==> b.conditions[j].Span() >= 0 && SharesAlike(b, now, store, j) {
      forall j | 0 <= j < |b.conditions| ensures SharedAnswers(b, now, store)[j] == AloneAnswers(b, now, store)[j] {
        SharedAlikeIsAlone(b, now, store, w.step, j);
      }
      assert SharedAnswers(b, now, store) == AloneAnswers(b, now, store);
    }
    if AlikeOrRefused(b, now, store, w.step) {
      RefusalsNeverFlip(b, now, store, w.step);
    }
  }

  lemma BuiltIsItsWatch(b: Built, w: Watch)
    requires BuiltFrom(b, w)
    ensures b.watch == w && w.combinator != Unrecognised
  {}
}
