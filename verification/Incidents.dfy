/**
 Episodes and the incidents behind them: which runs announce a clean alternation of openings and
 endings with exactly the held incident open, and the two steps that break it.
 */
module Incidents {
  import opened Options
  import opened Verdicts
  import opened Watches
  import opened Planning
  import opened Episodes

  /** Reads a list of actions as (Open Repeat* (Resolve | Close))*, from inside an episode or from outside. */
  function Follow(actions: seq<Action>, inside: bool): Option<bool> {
    if actions == [] then Some(inside)
    else match Follow(actions[..|actions| - 1], inside)
      case None => None
      case Some(now) =>
        match actions[|actions| - 1].kind
        case Open => if now then None else Some(true)
        case Repeat => if now then Some(true) else None
        case Resolve => if now then Some(false) else None
        case Close => if now then Some(false) else None
  }

  lemma {:induction false} FollowConcat(a: seq<Action>, b: seq<Action>, inside: bool, middle: bool)
    requires Follow(a, inside) == Some(middle)
    ensures Follow(a + b, inside) == Follow(b, middle)
  {
    if b == [] {
      assert a + b == a;
    } else {
      assert (a + b)[..|a + b| - 1] == a + b[..|b| - 1];
      FollowConcat(a, b[..|b| - 1], inside, middle);
    }
  }

  /** The state holds an incident exactly while firing, and it is the only one open. */
  ghost predicate Tidy(l: Ledger) {
    && (l.state.phase == PhaseFiring <==> l.state.incidentID != "")
    && l.open == if l.state.phase == PhaseFiring then {l.state.incidentID} else {}
  }

  ghost predicate Mints(l: Ledger, e: Event) {
    e.Evaluated? ==> e.minted != "" && e.minted !in l.open
  }

  /** A firing watch whose streak was broken fires again before its hold is met a second time. */
  predicate Demotes(l: Ledger, e: Event) {
    && e.Evaluated? && !Outdated(l.state, e.now)
    && l.state.phase == PhaseFiring && l.state.definitionHash == e.w.definitionHash
    && e.ev.verdict == True && l.state.consecutiveFiring + 1 < e.w.HoldEvaluations()
  }

  /** The two steps that leave an incident open with nothing pointing at it as one. */
  predicate Breaks(l: Ledger, e: Event) {
    Demotes(l, e) || (e.Parked? && l.state.phase == PhaseFiring)
  }

  lemma FollowShort(x: Action, y: Action, inside: bool)
    ensures Follow([], inside) == Some(inside)
    ensures Follow([x], inside) == (match x.kind
                                    case Open => if inside then None else Some(true)
                                    case Repeat => if inside then Some(true) else None
                                    case _ => if inside then Some(false) else None)
    ensures x.kind == Close && inside && y.kind == Open ==> Follow([x, y], inside) == Some(true)
  {
    assert [x][..0] == [];
    assert [x, y][..1] == [x];
  }

  lemma EmitsShort(x: Action, y: Action)
    ensures forall k: Kind :: !Emits([], k) && (Emits([x], k) <==> x.kind == k)
    ensures forall k: Kind :: Emits([x, y], k) <==> x.kind == k || y.kind == k
  {
    EmitsAppend([], x);
    EmitsAppend([x], y);
    assert [] + [x] == [x] && [x] + [y] == [x, y];
  }

  ghost predicate Continues(l: Ledger, a: Advance) {
    Tidy(a.ledger) && Follow(a.actions, l.state.phase == PhaseFiring) == Some(a.ledger.state.phase == PhaseFiring)
  }

  /** An edit's own close and at most one action more is all a step ever asks for. */
  lemma ShortFacts(now: int, x: Action, inside: bool)
    ensures forall k: Kind :: !Emits([], k) && (Emits([] + [x], k) <==> x.kind == k)
    ensures var edit := Action(Close, now, Edited);
            && (forall k: Kind :: Emits([edit], k) <==> k == Close)
            && (forall k: Kind :: Emits([edit] + [x], k) <==> k == Close || x.kind == k)
            && Follow([edit], inside) == (if inside then Some(false) else None)
            && (inside && x.kind == Open ==> Follow([edit] + [x], inside) == Some(true))
    ensures Follow([], inside) == Some(inside)
    ensures Follow([] + [x], inside) == (match x.kind
                                         case Open => if inside then None else Some(true)
                                         case Repeat => if inside then Some(true) else None
                                         case _ => if inside then Some(false) else None)
  {
    hide Follow, Emits;
    var edit := Action(Close, now, Edited);
    FollowShort(x, x, inside);
    FollowShort(edit, x, inside);
    EmitsShort(x, x);
    EmitsShort(edit, x);
    assert [] + [x] == [x] && [edit] + [x] == [edit, x];
  }

  lemma FiringContinues(l: Ledger, e: Event)
    requires Tidy(l) && Mints(l, e) && e.Evaluated? && e.ev.verdict == True && !Outdated(l.state, e.now)
    ensures Continues(l, AdvanceBy(l, e)) <==> !Breaks(l, e)
  {
    hide Watch.HoldEvaluations, Follow, Emits;
    ShortFacts(e.now, Action(Open, e.now, NoReason), l.state.phase == PhaseFiring);
    ShortFacts(e.now, Action(Repeat, e.now, NoReason), l.state.phase == PhaseFiring);
  }

  lemma CleanContinues(l: Ledger, e: Event)
    requires Tidy(l) && e.Evaluated? && e.ev.verdict == False && !Outdated(l.state, e.now)
    ensures Continues(l, AdvanceBy(l, e))
  {
    hide Watch.HoldEvaluations, Follow, Emits;
    ShortFacts(e.now, Action(Resolve, e.now, Resolved), l.state.phase == PhaseFiring);
  }

  lemma UndecidedContinues(l: Ledger, e: Event)
    requires Tidy(l) && e.Evaluated? && e.ev.verdict == Unknown && !Outdated(l.state, e.now)
    ensures Continues(l, AdvanceBy(l, e))
  {
    hide Watch.HoldEvaluations, Follow, Emits;
    ShortFacts(e.now, Action(Close, e.now, Stale), l.state.phase == PhaseFiring);
  }

  /** Every step continues the alternation and keeps the books tidy, except exactly those two. */
  lemma DisciplineExactly(l: Ledger, e: Event)
    requires Tidy(l) && Mints(l, e)
    ensures Continues(l, AdvanceBy(l, e)) <==> !Breaks(l, e)
  {
    if e.Evaluated? && !Outdated(l.state, e.now) {
      hide Continues, AdvanceBy, Tidy, Mints, Watch.HoldEvaluations;
      match e.ev.verdict {
        case True => FiringContinues(l, e);
        case False => CleanContinues(l, e);
        case Unknown => UndecidedContinues(l, e);
      }
    } else {
      hide Watch.HoldEvaluations, Follow, Emits, Step;
      ShortFacts(0, Action(Open, 0, NoReason), l.state.phase == PhaseFiring);
      if e.Retired? {
        var x := Action(Close, e.now, e.reason);
        FollowShort(x, x, true);
      }
    }
  }

  /** Everything a run announces, in order. */
  function AllSaid(l: Ledger, es: seq<Event>): seq<Action> {
    if es == [] then [] else AllSaid(l, es[..|es| - 1]) + Said(l, es)
  }

  /** No event of the run breaks discipline where it happens, and every minted id is new there. */
  ghost predicate Disciplined(l: Ledger, es: seq<Event>) {
    forall k :: 0 <= k < |es| ==> Mints(Run(l, es[..k]), es[k]) && !Breaks(Run(l, es[..k]), es[k])
  }

  /** Whole runs: the announcements alternate, and the ledger's open incidents are exactly the one being fired on. */
  lemma {:induction false} RunsAlternate(l: Ledger, es: seq<Event>)
    requires Tidy(l) && Disciplined(l, es)
    ensures Tidy(Run(l, es))
    ensures Follow(AllSaid(l, es), l.state.phase == PhaseFiring) == Some(Run(l, es).state.phase == PhaseFiring)
  {
    hide Breaks, Mints, Tidy, AdvanceBy, Follow;
    if es == [] {
      FollowShort(Action(Open, 0, NoReason), Action(Open, 0, NoReason), l.state.phase == PhaseFiring);
    } else {
      var p := es[..|es| - 1];
      assert forall k :: 0 <= k <= |p| ==> p[..k] == es[..k];
      RunsAlternate(l, p);
      DisciplineExactly(Run(l, p), es[|p|]);
      FollowConcat(AllSaid(l, p), Said(l, es), l.state.phase == PhaseFiring, Run(l, p).state.phase == PhaseFiring);
    }
  }

  /** A watch that fires at once can never be demoted, so only parking can break its runs. */
  lemma HoldOneNeverDemotes(l: Ledger, e: Event)
    requires e.Evaluated? && e.w.HoldEvaluations() == 1
    ensures !Breaks(l, e)
  {}

  /** Every evaluation comes with an id of its own. */
  ghost predicate OwnIds(es: seq<Event>) {
    && (forall i :: 0 <= i < |es| && es[i].Evaluated? ==> es[i].minted != "")
    && (forall i, k :: 0 <= i < k < |es| && es[i].Evaluated? && es[k].Evaluated? ==> es[i].minted != es[k].minted)
  }

  lemma {:induction false} OpenWasMinted(hash: string, es: seq<Event>)
    ensures forall id :: id in Run(NewLedger(hash), es).open ==>
              exists i :: 0 <= i < |es| && es[i].Evaluated? && es[i].minted == id
  {
    if es != [] {
      OpenWasMinted(hash, es[..|es| - 1]);
      OpensOnlyItsOwn(Run(NewLedger(hash), es[..|es| - 1]), es[|es| - 1]);
    }
  }

  lemma OpensOnlyItsOwn(l: Ledger, e: Event)
    ensures AdvanceBy(l, e).ledger.open <= l.open + if e.Evaluated? then {e.minted} else {}
  {
    hide Step, Retire;
  }

  /** Runs without parking, in which every watch fires at once. */
  ghost predicate AtOnce(es: seq<Event>) {
    forall i :: 0 <= i < |es| ==> !es[i].Parked? && (es[i].Evaluated? ==> es[i].w.HoldEvaluations() == 1)
  }

  lemma AtOnceIsDisciplined(hash: string, es: seq<Event>)
    requires AtOnce(es) && OwnIds(es)
    ensures Disciplined(NewLedger(hash), es)
  {
    hide Run, Breaks, Watch.HoldEvaluations;
    forall k | 0 <= k < |es|
      ensures Mints(Run(NewLedger(hash), es[..k]), es[k]) && !Breaks(Run(NewLedger(hash), es[..k]), es[k])
    {
      OpenWasMinted(hash, es[..k]);
      NothingToBreak(Run(NewLedger(hash), es[..k]), es[k]);
    }
  }

  lemma NothingToBreak(l: Ledger, e: Event)
    requires !e.Parked? && (e.Evaluated? ==> e.w.HoldEvaluations() == 1)
    ensures !Breaks(l, e)
  {
    if e.Evaluated? { HoldOneNeverDemotes(l, e); }
  }

  /** Announcements alternate from the first event on, and the incident held is the one open. */
  ghost predicate Clean(hash: string, es: seq<Event>) {
    Tidy(Run(NewLedger(hash), es)) && Follow(AllSaid(NewLedger(hash), es), false).Some?
  }

  /** Edits, retirements and recoveries in any order included. */
  lemma FiringAtOnceIsClean(hash: string, es: seq<Event>)
    requires AtOnce(es) && OwnIds(es)
    ensures Clean(hash, es)
  {
    hide AtOnce, OwnIds, Disciplined, Follow, Run;
    AtOnceIsDisciplined(hash, es);
    RunsAlternate(NewLedger(hash), es);
  }

  // ----- longer holds ----------------------------------------------------------------------------

  /** n firing evaluations of one watch, a nanosecond apart, under ids of their own. */
  function Burst(w: Watch, ev: Evaluation, start: int, n: nat): seq<Event>
    requires start >= 0
  {
    seq(n, i requires i >= 0 => Evaluated(w, ev, start + i, Id(start + i)))
  }

  function Id(n: nat): (r: string)
    ensures |r| == n + 1
  {
    seq(n + 1, _ => 'i')
  }

  /** A full hold of firing verdicts opens an incident, whatever the row looked like, and closes none. */
  lemma {:induction false} BurstOpens(l: Ledger, w: Watch, ev: Evaluation, start: nat, n: nat)
    requires ev.verdict == True && n <= w.HoldEvaluations()
    requires l.state.definitionHash == w.definitionHash && l.state.consecutiveFiring == 0
    requires l.state.phase == PhaseFiring ==> w.HoldEvaluations() >= 2
    requires l.state.lastEvalAt.Some? ==> l.state.lastEvalAt.value < start
    ensures var r := Run(l, Burst(w, ev, start, n));
            && r.state.definitionHash == w.definitionHash && r.state.consecutiveFiring == n
            && (n > 0 ==> r.state.lastEvalAt == Some(start + n - 1) && r.state.consecutiveOK == 0)
            && (n == 0 ==> r == l)
            && (0 < n < w.HoldEvaluations() ==> r.state.phase == PhasePending)
            && (n < w.HoldEvaluations() ==> r.open == l.open)
            && (n == w.HoldEvaluations() > 0 ==>
                  r.state.phase == PhaseFiring && r.state.incidentID == Id(start + n - 1)
                  && r.open == l.open + {Id(start + n - 1)})
  {
    hide Watch.HoldEvaluations, AdvanceBy, Id;
    if n > 0 {
      var es := Burst(w, ev, start, n);
      assert es[..n - 1] == Burst(w, ev, start, n - 1);
      BurstOpens(l, w, ev, start, n - 1);
      OneFiring(Run(l, es[..n - 1]), w, ev, start + n - 1, Id(start + n - 1));
    } else {
      assert Burst(w, ev, start, 0) == [];
    }
  }

  /** One firing verdict toward a hold that was broken or never begun. */
  lemma OneFiring(l: Ledger, w: Watch, ev: Evaluation, now: int, minted: string)
    requires ev.verdict == True && l.state.definitionHash == w.definitionHash && !Outdated(l.state, now)
    requires l.state.phase == PhaseFiring ==> l.state.consecutiveFiring + 1 < w.HoldEvaluations()
    ensures var r := AdvanceBy(l, Evaluated(w, ev, now, minted)).ledger;
            && r.state.definitionHash == w.definitionHash && r.state.lastEvalAt == Some(now)
            && r.state.consecutiveFiring == l.state.consecutiveFiring + 1 && r.state.consecutiveOK == 0
            && (if r.state.consecutiveFiring < w.HoldEvaluations() then
                  r.state.phase == PhasePending && r.open == l.open
                else r.state.phase == PhaseFiring && r.state.incidentID == minted && r.open == l.open + {minted})
  {
    hide Watch.HoldEvaluations, Emits;
    ShortFacts(now, Action(Open, now, NoReason), true);
  }

  lemma {:induction false} RunConcat(l: Ledger, a: seq<Event>, b: seq<Event>)
    ensures Run(l, a + b) == Run(Run(l, a), b)
  {
    hide AdvanceBy;
    if b == [] {
      assert a + b == a;
    } else {
      assert (a + b)[..|a + b| - 1] == a + b[..|b| - 1];
      RunConcat(l, a, b[..|b| - 1]);
    }
  }

  lemma OneCleanKeepsFiring(l: Ledger, w: Watch, ev: Evaluation, now: int, minted: string)
    requires l.state.phase == PhaseFiring && l.state.consecutiveOK == 0 && ev.verdict == False
    requires l.state.definitionHash == w.definitionHash && !Outdated(l.state, now)
    ensures var a := AdvanceBy(l, Evaluated(w, ev, now, minted));
            && a.ledger.open == l.open && a.ledger.state.phase == PhaseFiring
            && a.ledger.state.consecutiveFiring == 0 && a.ledger.state.definitionHash == w.definitionHash
            && a.ledger.state.lastEvalAt == Some(now)
  {}

  /**
   Every hold of more than one evaluation has a run that loses an incident: a full hold, one clean
   verdict, and the hold again leave two incidents open, of which the state knows one.
   */
  lemma LongerHoldsOrphan(w: Watch, yes: Evaluation, no: Evaluation) returns (es: seq<Event>)
    requires w.HoldEvaluations() >= 2 && yes.verdict == True && no.verdict == False
    ensures Timely(es) && OwnIds(es) && OnlyEvaluates(w, es)
    ensures var r := Run(NewLedger(w.definitionHash), es);
            |r.open| == 2 && r.state.phase == PhaseFiring && r.state.incidentID in r.open
  {
    hide Run, AdvanceBy, Watch.HoldEvaluations;
    var n := w.HoldEvaluations();
    var l := NewLedger(w.definitionHash);
    var a, c := Burst(w, yes, 0, n), Burst(w, yes, n + 1, n);
    var b := [Evaluated(w, no, n, Id(n))];
    BurstOpens(l, w, yes, 0, n);
    var la := Run(l, a);
    OneCleanKeepsFiring(la, w, no, n, Id(n));
    RunOne(la, b[0]);
    BurstOpens(Run(la, b), w, yes, n + 1, n);
    RunConcat(la, b, c);
    RunConcat(l, a, b + c);
    es := a + (b + c);
    InStep(w, es);
    assert |Id(n - 1)| != |Id(n + 1 + n - 1)|;
  }

  ghost predicate OnlyEvaluates(w: Watch, es: seq<Event>) {
    forall i :: 0 <= i < |es| ==> es[i].Evaluated? && es[i].w == w
  }

  lemma InStep(w: Watch, es: seq<Event>)
    requires forall i :: 0 <= i < |es| ==> es[i].Evaluated? && es[i].w == w && es[i].now == i && es[i].minted == Id(i)
    ensures Timely(es) && OwnIds(es) && OnlyEvaluates(w, es)
  {
    forall i, k | 0 <= i < k < |es| ensures es[i].minted != es[k].minted {
      assert |Id(i)| != |Id(k)|;
    }
  }

  /** A watch's runs are always clean, however it flaps, exactly when its hold is a single evaluation. */
  lemma CleanExactlyAtHoldOne(w: Watch)
    ensures (forall es :: OnlyEvaluates(w, es) && Timely(es) && OwnIds(es) ==> Clean(w.definitionHash, es))
            <==> w.HoldEvaluations() == 1
  {
    hide Timely, OwnIds, Run, Follow, AllSaid, Watch.HoldEvaluations;
    if w.HoldEvaluations() == 1 {
      forall es | OnlyEvaluates(w, es) && OwnIds(es) ensures Clean(w.definitionHash, es) {
        FiringAtOnceIsClean(w.definitionHash, es);
      }
    } else {
      HoldIsPositive(w);
      var yes := Evaluation(0, All, [], True, FiringStatus, 0, 0, false, None);
      var es := LongerHoldsOrphan(w, yes, yes.(verdict := False, status := OKStatus));
    }
  }

  lemma HoldIsPositive(w: Watch)
    ensures w.HoldEvaluations() >= 1
  {}

  lemma RunOne(l: Ledger, e: Event)
    ensures Run(l, [e]) == AdvanceBy(l, e).ledger
  {
    hide AdvanceBy;
    assert [e][..0] == [];
  }

  /** Parking a firing watch as unbuildable loses its incident too, at any hold already met. */
  lemma ParkingOrphans(l: Ledger, parked: Event, e: Event)
    requires Tidy(l) && l.state.phase == PhaseFiring && parked.Parked?
    requires e.Evaluated? && e.ev.verdict == True && Mints(l, e) && !Outdated(l.state, e.now)
    requires e.w.definitionHash == l.state.definitionHash
    requires l.state.consecutiveFiring + 1 >= e.w.HoldEvaluations()
    ensures var r := AdvanceBy(AdvanceBy(l, parked).ledger, e).ledger;
            r.open == {l.state.incidentID, e.minted} && |r.open| == 2 && r.state.incidentID == e.minted
  {
    hide Watch.HoldEvaluations, Emits;
    ShortFacts(e.now, Action(Open, e.now, NoReason), true);
  }

  // ----- what is still true of them --------------------------------------------------------------

  /** The events of a run are about one definition's hold: equal hashes mean equal holds. */
  ghost predicate Coherent(w: Watch, es: seq<Event>) {
    forall i :: 0 <= i < |es| && es[i].Evaluated? && es[i].w.definitionHash == w.definitionHash ==>
      es[i].w.HoldEvaluations() == w.HoldEvaluations()
  }

  ghost predicate OnlyFiring(es: seq<Event>) {
    forall i :: 0 <= i < |es| ==> !es[i].Parked? && (es[i].Evaluated? ==> es[i].ev.verdict == True)
  }

  ghost predicate Burning(l: Ledger, w: Watch) {
    && l.state.phase == PhaseFiring && l.state.incidentID != "" && l.state.definitionHash == w.definitionHash
    && l.state.consecutiveFiring >= w.HoldEvaluations()
  }

  lemma BurningStep(l: Ledger, w: Watch, e: Event)
    requires Burning(l, w) && OnlyFiring([e]) && Coherent(w, [e])
    ensures var a := AdvanceBy(l, e);
            (!Ends(a.actions) ==> Burning(a.ledger, w) && !Emits(a.actions, Open))
  {
    hide Watch.HoldEvaluations, Emits;
    assert [e][0] == e;
    match e {
      case Evaluated(v, ev, now, minted) =>
        var edit, open, rep := Action(Close, now, Edited), Action(Open, now, NoReason), Action(Repeat, now, NoReason);
        EmitsShort(edit, open);
        EmitsShort(rep, rep);
        EmitsAppend([], rep);
        assert [] + [rep] == [rep] && [edit] + [open] == [edit, open];
      case Retired(v, now, reason) =>
        EmitsShort(Action(Close, now, reason), Action(Close, now, reason));
    }
  }

  lemma {:induction false} BurningRun(l: Ledger, w: Watch, es: seq<Event>)
    requires Burning(l, w) && OnlyFiring(es) && Coherent(w, es)
    requires forall k :: 0 < k <= |es| ==> !Ends(Said(l, es[..k]))
    ensures Burning(Run(l, es), w)
    ensures es != [] ==> !Emits(Said(l, es), Open)
  {
    hide Burning, AdvanceBy, Ends, Watch.HoldEvaluations, Emits;
    if es != [] {
      var p, e := es[..|es| - 1], es[|es| - 1];
      assert es[..|es|] == es;
      assert forall k :: 0 < k <= |p| ==> p[..k] == es[..k];
      BurningRun(l, w, p);
      assert OnlyFiring([e]) && Coherent(w, [e]);
      BurningStep(Run(l, p), w, e);
    }
  }

  lemma OpeningBurns(l: Ledger, e: Event)
    requires e.Evaluated? && e.minted != "" && Emits(AdvanceBy(l, e).actions, Open)
    ensures Burning(AdvanceBy(l, e).ledger, e.w)
  {
    hide Watch.HoldEvaluations, Emits;
    var a := Begin(l.state, e.w, e.ev, e.now).actions;
    BeginEmits(l.state, e.w, e.ev, e.now);
    EmitsShort(Action(Open, e.now, NoReason), Action(Open, e.now, NoReason));
    EmitsAppend(a, Action(Repeat, e.now, NoReason));
    EmitsAppend(a, Action(Open, e.now, NoReason));
    EmitsAppend(a, Action(Resolve, e.now, Resolved));
    EmitsAppend(a, Action(Close, e.now, Stale));
  }

  /**
   For any hold and from any state: an incident is never opened twice over without an ending in
   between unless some evaluation between the two openings did not fire.
   */
  lemma SecondOpeningNeedsAPause(l: Ledger, e: Event, es: seq<Event>)
    requires e.Evaluated? && e.minted != "" && Emits(AdvanceBy(l, e).actions, Open) && Coherent(e.w, es)
    requires forall i :: 0 <= i < |es| ==> !es[i].Parked?
    requires var after := AdvanceBy(l, e).ledger;
             && (forall k :: 0 < k <= |es| ==> !Ends(Said(after, es[..k])))
             && es != [] && Emits(Said(after, es), Open)
    ensures exists i :: 0 <= i < |es| && es[i].Evaluated? && es[i].ev.verdict != True
  {
    hide Emits, Ends, AdvanceBy, Burning, Watch.HoldEvaluations;
    OpeningBurns(l, e);
    if OnlyFiring(es) {
      BurningRun(AdvanceBy(l, e).ledger, e.w, es);
    }
  }
}
