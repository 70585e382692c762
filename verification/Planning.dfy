/**
 Planning a watch's fetches and evaluating it on what came back. Conditions that read the same
 rows share one fetch of the union of their spans.
 */
module Planning {
  import opened Options
  import opened Verdicts
  import opened Queries
  import SeriesGrid
  import SeriesBuffers
  import opened Conditions
  import opened PodStatistics
  import Watches

  // ----- the plan --------------------------------------------------------------------------------

  /** The key of any query whose step can be rendered, as every built watch's can. */
  ghost function KeyOf(q: Query): string {
    if q.step >= NANOS_PER_SECOND then q.Key() else ""
  }

  /** Position j is the first of the queries to carry the key. */
  ghost predicate FirstAt(qs: seq<Query>, key: string, j: nat) {
    j < |qs| && KeyOf(qs[j]) == key && forall k :: 0 <= k < j ==> KeyOf(qs[k]) != key
  }

  ghost predicate Mentions(qs: seq<Query>, n: nat, key: string, j: int) {
    0 <= j < n <= |qs| && KeyOf(qs[j]) == key
  }

  /**
   p is the query at `first`, stretched over exactly the union of the spans of those of the first
   n queries that carry its key.
   */
  ghost predicate UnionOf(p: Query, qs: seq<Query>, n: nat, key: string, first: nat) {
    && first < n <= |qs| && FirstAt(qs, key, first)
    && p == qs[first].(from := p.from, to := p.to)
    && (forall j :: Mentions(qs, n, key, j) ==> p.from <= qs[j].from && qs[j].to <= p.to)
    && (exists j :: Mentions(qs, n, key, j) && qs[j].from == p.from)
    && (exists j :: Mentions(qs, n, key, j) && qs[j].to == p.to)
  }

  /** One fetch per distinct key, in order of first mention, each the union of what was asked. */
  ghost predicate Coalesces(plan: seq<Query>, firsts: seq<nat>, qs: seq<Query>) {
    && |firsts| == |plan|
    && (forall i, k :: 0 <= i < k < |firsts| ==> firsts[i] < firsts[k])
    && (forall i :: 0 <= i < |plan| ==> UnionOf(plan[i], qs, |qs|, KeyOf(plan[i]), firsts[i]))
    && (forall j :: 0 <= j < |qs| ==> exists i :: 0 <= i < |plan| && KeyOf(plan[i]) == KeyOf(qs[j]))
  }

  ghost predicate Coalesced(plan: seq<Query>, qs: seq<Query>) {
    exists firsts: seq<nat> :: Coalesces(plan, firsts, qs)
  }

  function QueriesOf(cs: seq<Condition>, now: int): (qs: seq<Query>)
    ensures |qs| == |cs| && forall i :: 0 <= i < |qs| ==> qs[i] == cs[i].QueryAt(now)
  {
    seq(|cs|, i requires 0 <= i < |cs| => cs[i].QueryAt(now))
  }

  lemma RespannedKey(p: Query, q: Query)
    requires p == q.(from := p.from, to := p.to)
    ensures KeyOf(p) == KeyOf(q)
  {}

  lemma UnionStarts(qs: seq<Query>, n: nat, key: string)
    requires n < |qs| && FirstAt(qs, key, n)
    ensures UnionOf(qs[n], qs, n + 1, key, n)
  {
    hide KeyOf;
    assert Mentions(qs, n + 1, key, n);
  }

  lemma UnionGrows(p: Query, qs: seq<Query>, n: nat, key: string, first: nat)
    requires n < |qs| && UnionOf(p, qs, n, key, first)
    ensures UnionOf(if KeyOf(qs[n]) == key then p.Widen(qs[n]) else p, qs, n + 1, key, first)
  {
    hide KeyOf;
    var a :| Mentions(qs, n, key, a) && qs[a].from == p.from;
    var b :| Mentions(qs, n, key, b) && qs[b].to == p.to;
    assert Mentions(qs, n + 1, key, a) && Mentions(qs, n + 1, key, b);
    assert forall j :: Mentions(qs, n + 1, key, j) ==> Mentions(qs, n, key, j) || j == n;
    assert Mentions(qs, n + 1, key, n) || KeyOf(qs[n]) != key;
  }

  /** What the loop holds after n queries: the keys in order of first mention, and their unions. */
  ghost predicate PlannedSoFar(
      order: seq<string>, byKey: map<string, Query>, firsts: seq<nat>, qs: seq<Query>, n: nat)
  {
    && n <= |qs| && |firsts| == |order|
    && (forall key :: key in byKey <==> key in order)
    && (forall i, k :: 0 <= i < k < |firsts| ==> firsts[i] < firsts[k])
    && (forall i :: 0 <= i < |order| ==> order[i] in byKey && UnionOf(byKey[order[i]], qs, n, order[i], firsts[i]))
    && (forall j :: 0 <= j < n ==> KeyOf(qs[j]) in byKey)
  }

  lemma MergeKeeps(order: seq<string>, byKey: map<string, Query>, firsts: seq<nat>, qs: seq<Query>, n: nat, key: string)
    requires n < |qs| && PlannedSoFar(order, byKey, firsts, qs, n)
    requires key == KeyOf(qs[n]) && key in byKey
    ensures PlannedSoFar(order, byKey[key := byKey[key].Widen(qs[n])], firsts, qs, n + 1)
  {
    hide KeyOf, UnionOf;
    forall i | 0 <= i < |order|
      ensures UnionOf(if key == order[i] then byKey[order[i]].Widen(qs[n]) else byKey[order[i]],
                      qs, n + 1, order[i], firsts[i])
    {
      UnionGrows(byKey[order[i]], qs, n, order[i], firsts[i]);
    }
  }

  lemma AppendKeeps(
      order: seq<string>, byKey: map<string, Query>, firsts: seq<nat>, qs: seq<Query>, n: nat, key: string)
    requires n < |qs| && PlannedSoFar(order, byKey, firsts, qs, n)
    requires key == KeyOf(qs[n]) && key !in byKey
    ensures PlannedSoFar(order + [key], byKey[key := qs[n]], firsts + [n], qs, n + 1)
  {
    hide KeyOf, UnionOf;
    forall i | 0 <= i < |order| ensures order[i] != key && UnionOf(byKey[order[i]], qs, n + 1, order[i], firsts[i]) {
      UnionGrows(byKey[order[i]], qs, n, order[i], firsts[i]);
    }
    forall i | 0 <= i < |firsts| ensures firsts[i] < n {
      FirstsAreEarlier(byKey[order[i]], qs, n, order[i], firsts[i]);
    }
    UnionStarts(qs, n, key);
  }

  lemma FirstsAreEarlier(p: Query, qs: seq<Query>, n: nat, key: string, first: nat)
    requires UnionOf(p, qs, n, key, first)
    ensures first < n
  {}

  lemma PlanIsDone(order: seq<string>, byKey: map<string, Query>, firsts: seq<nat>, qs: seq<Query>, plan: seq<Query>)
    requires PlannedSoFar(order, byKey, firsts, qs, |qs|)
    requires |plan| == |order| && forall i :: 0 <= i < |plan| ==> plan[i] == byKey[order[i]]
    ensures Coalesces(plan, firsts, qs)
  {
    hide KeyOf;
    forall i | 0 <= i < |plan| ensures KeyOf(plan[i]) == order[i] {
      RespannedKey(plan[i], qs[firsts[i]]);
    }
    forall j | 0 <= j < |qs| ensures exists i :: 0 <= i < |plan| && KeyOf(plan[i]) == KeyOf(qs[j]) {
      assert KeyOf(qs[j]) in order;
      var i :| 0 <= i < |order| && order[i] == KeyOf(qs[j]);
      assert KeyOf(plan[i]) == KeyOf(qs[j]);
    }
  }

  /** Collects one query per key in a map, remembering the order keys first appeared in. */
  method Plan(cs: seq<Condition>, now: int) returns (plan: seq<Query>)
    requires forall i :: 0 <= i < |cs| ==> cs[i].step >= NANOS_PER_SECOND
    ensures Coalesced(plan, QueriesOf(cs, now))
  {
    hide UnionOf, Query.Key;
    ghost var qs := QueriesOf(cs, now);
    var order: seq<string>, byKey: map<string, Query> := [], map[];
    ghost var firsts: seq<nat> := [];
    for n := 0 to |cs|
      invariant PlannedSoFar(order, byKey, firsts, qs, n)
    {
      var q := cs[n].QueryAt(now);
      var key := RenderKey(q);
      if key in byKey {
        MergeKeeps(order, byKey, firsts, qs, n, key);
        byKey := byKey[key := byKey[key].Widen(q)];
        continue;
      }
      AppendKeeps(order, byKey, firsts, qs, n, key);
      byKey := byKey[key := q];
      order := order + [key];
      firsts := firsts + [n];
    }
    plan := [];
    for i := 0 to |order|
      invariant |plan| == i && forall k :: 0 <= k < i ==> plan[k] == byKey[order[k]]
    {
      plan := plan + [byKey[order[i]]];
    }
    PlanIsDone(order, byKey, firsts, qs, plan);
  }

  // ----- fetching --------------------------------------------------------------------------------

  datatype Fetched = Fetched(series: SeriesGrid.Series, error: Option<FetchError>)

  /**
   What the stores hold when a watch is evaluated. A selection of spans or log lines has one reading
   per bucket; pod statistics are read out of an index of pods, and depend on where the read begins.
   clock is when they are read, and refused says which selections cannot be read at all.
   */
  datatype Store = Store(
    reading: (Selection, int) -> SeriesBuffers.Reading, refused: Selection -> bool,
    pods: string -> seq<Pod>, clock: int)

  function ResolveOf(store: Store, q: Query): Resolved {
    Resolve(store.pods, store.clock, q.Selected(), q.from)
  }

  function ErrorOf(store: Store, q: Query): Option<FetchError> {
    if store.refused(q.Selected()) then Some(Refused)
    else if q.source != PodStats then None
    else match ResolveOf(store, q) case Denied(e) => Some(e) case Reads(_, _) => None
  }

  function SpanOf(q: Query): PodStatistics.Span { PodStatistics.Span(q.from, q.to, q.step) }

  /** How the bucket that starts at t reads in the fetch of q. */
  function ReadAt(store: Store, q: Query, t: int): SeriesBuffers.Reading
    requires ErrorOf(store, q).None?
  {
    if q.source != PodStats then store.reading(q.Selected(), t)
    else
      ReadsHaveAcross(store.pods, store.clock, q.Selected(), q.from);
      PodReading(ResolveOf(store, q), q.Selected(), SpanOf(q), t)
  }

  const NO_SERIES := SeriesGrid.Series(0, 0, [], [], false)

  function CutFrom(store: Store, q: Query): SeriesGrid.Series
    requires ErrorOf(store, q).None?
  {
    var n := SeriesGrid.BucketCount(q.from, q.to, q.step);
    SeriesGrid.Series(q.step, SeriesGrid.UnixMilli(q.from),
           seq(n, i => ReadAt(store, q, q.from + i * q.step).value),
           seq(n, i => ReadAt(store, q, q.from + i * q.step).denominator),
           q.aggregate.FillsZero(q.source))
  }

  function FetchOf(store: Store, q: Query): Fetched {
    match ErrorOf(store, q)
    case Some(e) => Fetched(NO_SERIES, Some(e))
    case None => Fetched(CutFrom(store, q), None)
  }

  /** One fetch per planned query, filed under its key. */
  method FetchAll(plan: seq<Query>, store: Store) returns (out: map<string, Fetched>)
    requires forall i :: 0 <= i < |plan| ==> plan[i].step >= NANOS_PER_SECOND
    requires forall i, k :: 0 <= i < k < |plan| ==> KeyOf(plan[i]) != KeyOf(plan[k])
    ensures forall i :: 0 <= i < |plan| ==> KeyOf(plan[i]) in out && out[KeyOf(plan[i])] == FetchOf(store, plan[i])
    ensures forall key :: key in out ==> exists i :: 0 <= i < |plan| && key == KeyOf(plan[i])
  {
    hide Query.Key, FetchOf;
    out := map[];
    for n := 0 to |plan|
      invariant forall i :: 0 <= i < n ==> KeyOf(plan[i]) in out && out[KeyOf(plan[i])] == FetchOf(store, plan[i])
      invariant forall key :: key in out ==> exists i :: 0 <= i < n && key == KeyOf(plan[i])
    {
      var key := RenderKey(plan[n]);
      out := out[key := FetchOf(store, plan[n])];
    }
  }

  // ----- evaluating ------------------------------------------------------------------------------

  datatype Status = OKStatus | FiringStatus | InsufficientStatus | ErrorStatus

  datatype Evaluation = Evaluation(
    at: int, combinator: Combinator, outcomes: seq<Outcome>, verdict: Truth, status: Status,
    matched: nat, total: nat, degraded: bool, window: Option<Stretch>)

  /** One condition's answer to what was fetched for it, with the watch's reading of no data. */
  function Answer(c: Condition, now: int, policy: NoDataPolicy, f: Fetched): Outcome
    requires f.error.None? ==> Readable(f.series)
  {
    match f.error
    case Some(Coarse) => Unavailable(c, CoarseData)
    case Some(Refused) => Unavailable(c, FetchFailed)
    case None =>
      var out := Judge(c, now, f.series);
      if out.noData then out.Finish(policy.Truth(), out.reason) else out
  }

  function Matched(os: seq<Outcome>): nat {
    if os == [] then 0 else Matched(os[..|os| - 1]) + if os[|os| - 1].verdict == True then 1 else 0
  }

  predicate Degrades(o: Outcome) { o.failed || o.verdict == Unknown }

  function WidenStretch(acc: Option<Stretch>, next: Option<Stretch>): Option<Stretch> {
    match (acc, next)
    case (_, None) => acc
    case (None, _) => next
    case (Some(a), Some(b)) =>
      Some(Stretch(if b.from < a.from then b.from else a.from, if b.to > a.to then b.to else a.to))
  }

  function Widest(os: seq<Outcome>): Option<Stretch> {
    if os == [] then None else WidenStretch(Widest(os[..|os| - 1]), os[|os| - 1].window)
  }

  function VerdictsOf(os: seq<Outcome>): (vs: seq<Truth>)
    ensures |vs| == |os| && forall i :: 0 <= i < |os| ==> vs[i] == os[i].verdict
  {
    seq(|os|, i requires 0 <= i < |os| => os[i].verdict)
  }

  function StatusOf(verdict: Truth, os: seq<Outcome>): Status {
    match verdict
    case True => FiringStatus
    case False => OKStatus
    case Unknown => if os != [] && forall o | o in os :: o.failed then ErrorStatus else InsufficientStatus
  }

  /** The evaluation a watch's outcomes amount to. */
  function Summed(combinator: Combinator, now: int, os: seq<Outcome>): Evaluation {
    var verdict := Combined(combinator, VerdictsOf(os));
    Evaluation(now, combinator, os, verdict, StatusOf(verdict, os), Matched(os), |os|,
               exists i :: 0 <= i < |os| && Degrades(os[i]), Widest(os))
  }

  lemma CombinedSnoc(vs: seq<Truth>, v: Truth)
    ensures Combined(All, []) == Unknown && Combined(Any, []) == Unknown
    ensures Combined(All, vs + [v]) == True <==> v == True && (vs == [] || Combined(All, vs) == True)
    ensures Combined(Any, vs + [v]) == True <==> v == True || Combined(Any, vs) == True
  {
    var more := vs + [v];
    assert forall t: Truth :: t in more <==> t in vs || t == v;
  }

  /** The count of matches decides what it should: all of them under one combinator, any under the other. */
  lemma {:induction false} MatchesDecide(os: seq<Outcome>)
    ensures Combined(All, VerdictsOf(os)) == True <==> os != [] && Matched(os) == |os|
    ensures Combined(Any, VerdictsOf(os)) == True <==> Matched(os) > 0
    ensures Matched(os) <= |os|
  {
    hide Combined;
    if os == [] {
      CombinedSnoc(VerdictsOf(os), True);
      assert VerdictsOf(os) == [];
    } else {
      var p, last := os[..|os| - 1], os[|os| - 1].verdict;
      assert VerdictsOf(os) == VerdictsOf(p) + [last];
      CombinedSnoc(VerdictsOf(p), last);
      MatchesDecide(p);
    }
  }

  /** What the condition's own key finds, if anything, can be judged. */
  ghost predicate Servable(c: Condition, now: int, fetched: map<string, Fetched>) {
    && c.WellFormed() && c.step >= NANOS_PER_SECOND
    && (HasFetched(c, now, fetched) ==>
          var f := fetched[KeyOf(c.QueryAt(now))]; f.error.None? ==> Readable(f.series))
  }

  ghost predicate HasFetched(c: Condition, now: int, fetched: map<string, Fetched>) {
    KeyOf(c.QueryAt(now)) in fetched
  }

  ghost function OutcomeFor(c: Condition, policy: NoDataPolicy, now: int, fetched: map<string, Fetched>): Outcome
    requires Servable(c, now, fetched)
  {
    if HasFetched(c, now, fetched) then Answer(c, now, policy, fetched[KeyOf(c.QueryAt(now))])
    else Unavailable(c, FetchFailed)
  }

  method EvaluateOne(policy: NoDataPolicy, c: Condition, now: int, fetched: map<string, Fetched>) returns (out: Outcome)
    requires Servable(c, now, fetched)
    ensures out == OutcomeFor(c, policy, now, fetched)
  {
    hide Judge, Query.Key;
    var key := RenderKey(c.QueryAt(now));
    if key !in fetched {
      return Unavailable(c, FetchFailed);
    }
    var f := fetched[key];
    match f.error {
      case Some(Coarse) => return Unavailable(c, CoarseData);
      case Some(Refused) => return Unavailable(c, FetchFailed);
      case None =>
    }
    out := Conditions.Evaluate(c, now, f.series);
    if out.noData {
      out := out.Finish(policy.Truth(), out.reason);
    }
  }

  ghost function OutcomesFor(b: Watches.Built, now: int, fetched: map<string, Fetched>): (os: seq<Outcome>)
    requires forall i :: 0 <= i < |b.conditions| ==> Servable(b.conditions[i], now, fetched)
    ensures |os| == |b.conditions|
    ensures forall i :: 0 <= i < |os| ==> os[i] == OutcomeFor(b.conditions[i], b.watch.onNoData, now, fetched)
  {
    seq(|b.conditions|, i requires 0 <= i < |b.conditions| =>
          OutcomeFor(b.conditions[i], b.watch.onNoData, now, fetched))
  }

  method Evaluate(b: Watches.Built, now: int, fetched: map<string, Fetched>) returns (eval: Evaluation)
    requires forall i :: 0 <= i < |b.conditions| ==> Servable(b.conditions[i], now, fetched)
    ensures eval == Summed(b.watch.combinator, now, OutcomesFor(b, now, fetched))
  {
    hide Combined, OutcomeFor, Servable, StatusOf;
    ghost var spec := OutcomesFor(b, now, fetched);
    var outcomes, verdicts, matched, degraded, window := [], [], 0, false, None;
    for n := 0 to |b.conditions|
      invariant outcomes == spec[..n] && verdicts == VerdictsOf(outcomes)
      invariant matched == Matched(outcomes) && window == Widest(outcomes)
      invariant degraded <==> exists i :: 0 <= i < |outcomes| && Degrades(outcomes[i])
    {
      var out := EvaluateOne(b.watch.onNoData, b.conditions[n], now, fetched);
      if out.failed || out.verdict == Unknown {
        degraded := true;
      }
      if out.verdict == True {
        matched := matched + 1;
      }
      window := WidenStretch(window, out.window);
      assert (outcomes + [out])[..|outcomes|] == outcomes;
      outcomes, verdicts := outcomes + [out], verdicts + [out.verdict];
    }
    assert outcomes == spec;
    var verdict := Combine(b.watch.combinator, verdicts);
    eval := Evaluation(now, b.watch.combinator, outcomes, verdict, StatusOf(verdict, outcomes), matched,
                       |b.conditions|, degraded, window);
  }
}
