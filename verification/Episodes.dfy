/**
 The flap-control machine: a watch's state, advanced by one evaluation at a time, and the store's
 record of which incidents are open. Its phase and its actions are properties of whole histories.
 */
module Episodes {
  import opened Options
  import opened Verdicts
  import Conditions
  import opened Watches
  import opened Planning

  const RESOLVE_EVALUATIONS := 2
  const STALE_EVALUATIONS := 30

  datatype Phase = PhaseOK | PhasePending | PhaseFiring | PhaseInvalid

  datatype State = State(
    watchID: string, phase: Phase, since: Option<int>,
    consecutiveFiring: nat, consecutiveOK: nat, consecutiveErrors: nat,
    definitionHash: string, lastEvalAt: Option<int>, lastStatus: Option<Status>, lastValue: Option<real>,
    incidentID: string, lastNotifiedAt: Option<int>, nextDueAt: int)

  datatype Kind = Open | Repeat | Resolve | Close

  datatype ClosedReason = NoReason | Resolved | Stale | Edited | Disabled | Deleted

  datatype Action = Action(kind: Kind, at: int, reason: ClosedReason)

  datatype Move = Move(state: State, actions: seq<Action>)

  // ----- one step --------------------------------------------------------------------------------

  function FirstObserved(outcomes: seq<Conditions.Outcome>): Option<real> {
    if outcomes == [] then None
    else if outcomes[0].observed.Some? then outcomes[0].observed
    else FirstObserved(outcomes[1..])
  }

  /** The machine at rest under w's definition, with any open episode closed for the reason given. */
  function Reset(s: State, w: Watch, now: int, reason: ClosedReason): Move {
    Move(s.(phase := PhaseOK, since := Some(now), consecutiveFiring := 0, consecutiveOK := 0,
            consecutiveErrors := 0, incidentID := "", lastNotifiedAt := None, definitionHash := w.definitionHash),
         if s.phase == PhaseFiring && s.incidentID != "" then [Action(Close, now, reason)] else [])
  }

  function Retire(s: State, w: Watch, now: int, reason: ClosedReason): Move {
    Reset(s, w, now, reason)
  }

  /** The evaluation's own marks, and a reset before anything else looks at an edited definition. */
  function Begin(cur: State, w: Watch, ev: Evaluation, now: int): Move {
    var next := cur.(watchID := w.id, lastEvalAt := Some(now), lastStatus := Some(ev.status),
                     lastValue := FirstObserved(ev.outcomes), nextDueAt := now + w.interval);
    if cur.definitionHash != w.definitionHash then Reset(next, w, now, Edited) else Move(next, [])
  }

  function Step(cur: State, w: Watch, ev: Evaluation, now: int): Move {
    var m := Begin(cur, w, ev, now);
    match ev.verdict
    case Unknown => Undecided(m, now)
    case True => Firing(m, w, now)
    case False => Recovered(m, now)
  }

  function Firing(m: Move, w: Watch, now: int): Move {
    var s := m.state.(consecutiveFiring := m.state.consecutiveFiring + 1, consecutiveOK := 0, consecutiveErrors := 0);
    if s.consecutiveFiring < w.HoldEvaluations() then
      Move(if s.phase != PhasePending then s.(phase := PhasePending, since := Some(now)) else s, m.actions)
    else if s.phase != PhaseFiring then
      Move(s.(phase := PhaseFiring, since := Some(now), incidentID := ""), m.actions + [Action(Open, now, NoReason)])
    else Move(s, m.actions + [Action(Repeat, now, NoReason)])
  }

  function Recovered(m: Move, now: int): Move {
    var s := m.state.(consecutiveFiring := 0, consecutiveErrors := 0, consecutiveOK := m.state.consecutiveOK + 1);
    match s.phase
    case PhaseFiring =>
      if s.consecutiveOK < RESOLVE_EVALUATIONS then Move(s, m.actions)
      else
        Move(s.(phase := PhaseOK, since := Some(now), incidentID := ""), m.actions + [Action(Resolve, now, Resolved)])
    case PhasePending => Move(s.(phase := PhaseOK, since := Some(now)), m.actions)
    case _ => Move(s, m.actions)
  }

  function Undecided(m: Move, now: int): Move {
    var s := m.state.(consecutiveFiring := 0, consecutiveOK := 0, consecutiveErrors := m.state.consecutiveErrors + 1);
    match s.phase
    case PhaseFiring =>
      if s.consecutiveErrors < STALE_EVALUATIONS then Move(s, m.actions)
      else Move(s.(phase := PhaseOK, since := Some(now), incidentID := ""), m.actions + [Action(Close, now, Stale)])
    case PhasePending => Move(s.(phase := PhaseOK, since := Some(now)), m.actions)
    case _ => Move(s, m.actions)
  }

  // ----- the store -------------------------------------------------------------------------------

  /** A watch's state row and the incidents of its that have not been closed. */
  datatype Ledger = Ledger(state: State, open: set<string>)

  /**
   An evaluation recorded under the id the store would mint; a retirement, which puts the row at
   rest, leaves its hash and closes every open incident of the watch; or a definition that would
   not build, which parks the row and touches no incident.
   */
  datatype Event =
    | Evaluated(w: Watch, ev: Evaluation, now: int, minted: string)
    | Retired(w: Watch, now: int, reason: ClosedReason)
    | Parked(now: int, until: int)

  predicate Emits(actions: seq<Action>, kind: Kind) {
    exists i :: 0 <= i < |actions| && actions[i].kind == kind
  }

  predicate Ends(actions: seq<Action>) { Emits(actions, Resolve) || Emits(actions, Close) }

  /** Writes a move down: an opening mints an id for the state, an ending closes the episode held before. */
  function Record(before: State, m: Move, minted: string, open: set<string>): Ledger {
    var opens := Emits(m.actions, Open);
    Ledger(if opens then m.state.(incidentID := minted) else m.state,
           open + (if opens then {minted} else {})
           - (if Ends(m.actions) && before.incidentID != "" then {before.incidentID} else {}))
  }

  /** A later evaluation is already on record, so this one is dropped. */
  predicate Outdated(s: State, now: int) { s.lastEvalAt.Some? && now <= s.lastEvalAt.value }

  datatype Advance = Advance(ledger: Ledger, actions: seq<Action>)

  function AdvanceBy(l: Ledger, e: Event): Advance {
    match e
    case Evaluated(w, ev, now, minted) =>
      if Outdated(l.state, now) then Advance(l, [])
      else
        var m := Step(l.state, w, ev, now);
        Advance(Record(l.state, m, minted, l.open), m.actions)
    case Retired(w, now, reason) =>
      var m := Retire(l.state, w, now, reason);
      Advance(Ledger(m.state.(definitionHash := l.state.definitionHash), {}), m.actions)
    case Parked(now, until) =>
      Advance(l.(state := l.state.(phase := PhaseInvalid, since := Some(now), nextDueAt := until,
                                   lastStatus := Some(ErrorStatus))), [])
  }

  function Run(l: Ledger, es: seq<Event>): Ledger {
    if es == [] then l else AdvanceBy(Run(l, es[..|es| - 1]), es[|es| - 1]).ledger
  }

  /** What the last event of a run asked to be announced. */
  function Said(l: Ledger, es: seq<Event>): seq<Action>
    requires es != []
  {
    AdvanceBy(Run(l, es[..|es| - 1]), es[|es| - 1]).actions
  }

  function NewLedger(hash: string): Ledger {
    Ledger(State("", PhaseOK, None, 0, 0, 0, hash, None, None, None, "", None, 0), {})
  }

  // ----- what a history says ---------------------------------------------------------------------

  /** Evaluations in the order of their times, each minting a real id. */
  ghost predicate Timely(es: seq<Event>) {
    && (forall i :: 0 <= i < |es| && es[i].Evaluated? ==> es[i].minted != "")
    && (forall i, k :: 0 <= i < k < |es| && es[i].Evaluated? && es[k].Evaluated? ==> es[i].now < es[k].now)
  }

  /** The definition last evaluated. */
  function CurrentHash(hash: string, es: seq<Event>): string {
    if es == [] then hash
    else if es[|es| - 1].Evaluated? then es[|es| - 1].w.definitionHash
    else CurrentHash(hash, es[..|es| - 1])
  }

  predicate SameDefinition(hash: string, es: seq<Event>)
    requires es != []
  {
    CurrentHash(hash, es) == CurrentHash(hash, es[..|es| - 1])
  }

  /**
   How many evaluations at the very end, all of the current definition, reached the verdict; parking
   breaks no streak.
   */
  function Streak(hash: string, es: seq<Event>, t: Truth): nat {
    if es == [] then 0
    else
      var e := es[|es| - 1];
      if e.Parked? then Streak(hash, es[..|es| - 1], t)
      else if !e.Evaluated? || e.ev.verdict != t then 0
      else if SameDefinition(hash, es) then Streak(hash, es[..|es| - 1], t) + 1
      else 1
  }

  /** The run without its parkings. */
  function Unparked(es: seq<Event>): seq<Event> {
    if es == [] then []
    else if es[|es| - 1].Parked? then Unparked(es[..|es| - 1])
    else Unparked(es[..|es| - 1]) + [es[|es| - 1]]
  }

  lemma {:induction false} ParkingBreaksNoStreak(hash: string, es: seq<Event>, t: Truth)
    ensures CurrentHash(hash, Unparked(es)) == CurrentHash(hash, es)
    ensures Streak(hash, Unparked(es), t) == Streak(hash, es, t)
    ensures forall e :: e in Unparked(es) ==> e in es && !e.Parked?
  {
    if es != [] {
      var p := es[..|es| - 1];
      ParkingBreaksNoStreak(hash, p, t);
      if !es[|es| - 1].Parked? {
        assert (Unparked(p) + [es[|es| - 1]])[..|Unparked(p)|] == Unparked(p);
      }
    }
  }

  /** The streak is the longest unbroken tail: every event in it qualifies and the one before it does not. */
  lemma {:induction false} UnbrokenTail(hash: string, es: seq<Event>, t: Truth)
    requires forall i :: 0 <= i < |es| ==> !es[i].Parked?
    ensures var n := Streak(hash, es, t);
            && n <= |es|
            && (forall i :: |es| - n <= i < |es| ==>
                  es[i].Evaluated? && es[i].ev.verdict == t && es[i].w.definitionHash == CurrentHash(hash, es))
            && (0 < n < |es| ==>
                  var e := es[|es| - n - 1];
                  !(e.Evaluated? && e.ev.verdict == t && e.w.definitionHash == CurrentHash(hash, es)))
  {
    if es != [] && Streak(hash, es, t) > 1 {
      UnbrokenTail(hash, es[..|es| - 1], t);
    }
  }

  /** Parkings aside, a streak is the longest tail of evaluations of the current definition with the verdict. */
  lemma StreakIsLongestTail(hash: string, es: seq<Event>, t: Truth)
    ensures var us, n := Unparked(es), Streak(hash, es, t);
            && n <= |us|
            && (forall i :: |us| - n <= i < |us| ==>
                  us[i].Evaluated? && us[i].ev.verdict == t && us[i].w.definitionHash == CurrentHash(hash, es))
            && (0 < n < |us| ==>
                  var e := us[|us| - n - 1];
                  !(e.Evaluated? && e.ev.verdict == t && e.w.definitionHash == CurrentHash(hash, es)))
  {
    hide Streak, Unparked, CurrentHash;
    ParkingBreaksNoStreak(hash, es, t);
    UnbrokenTail(hash, Unparked(es), t);
  }

  /** The last evaluation completed a hold: as many firing verdicts in a row as its definition demands. */
  predicate Met(hash: string, es: seq<Event>) {
    es != [] && es[|es| - 1].Evaluated? && Streak(hash, es, True) >= es[|es| - 1].w.HoldEvaluations()
  }

  /** The last event leaves an open episode open. */
  predicate Lasts(hash: string, es: seq<Event>) {
    && es != [] && es[|es| - 1].Evaluated? && SameDefinition(hash, es)
    && Streak(hash, es, False) < RESOLVE_EVALUATIONS && Streak(hash, es, Unknown) < STALE_EVALUATIONS
    && (es[|es| - 1].ev.verdict == True ==> Met(hash, es))
  }

  /** Some evaluation met the hold, and everything since has left the episode open. */
  ghost predicate InEpisode(hash: string, es: seq<Event>) {
    exists j :: 1 <= j <= |es| && Met(hash, es[..j]) && forall k :: j < k <= |es| ==> Lasts(hash, es[..k])
  }

  /** A hold is under way: firing, but not for long enough yet. */
  predicate Holding(hash: string, es: seq<Event>) {
    es != [] && es[|es| - 1].Evaluated? && Streak(hash, es, True) > 0 && !Met(hash, es)
  }

  /** Parked, and since then no edit, no retirement and no firing verdict. */
  predicate Shelved(hash: string, es: seq<Event>) {
    && es != []
    && var e := es[|es| - 1];
       e.Parked? || (e.Evaluated? && e.ev.verdict != True && SameDefinition(hash, es) && Shelved(hash, es[..|es| - 1]))
  }

  lemma EpisodeUnfolds(hash: string, es: seq<Event>)
    requires es != []
    ensures InEpisode(hash, es) <==> Met(hash, es) || (InEpisode(hash, es[..|es| - 1]) && Lasts(hash, es))
  {
    hide Met, Lasts;
    var p := es[..|es| - 1];
    assert es[..|es|] == es;
    assert forall k :: 0 <= k <= |p| ==> p[..k] == es[..k];
    if InEpisode(hash, es) && !Met(hash, es) {
      var j :| 1 <= j <= |es| && Met(hash, es[..j]) && forall k :: j < k <= |es| ==> Lasts(hash, es[..k]);
      assert j <= |p|;
      assert Met(hash, p[..j]);
    }
    if InEpisode(hash, p) && Lasts(hash, es) {
      var j :| 1 <= j <= |p| && Met(hash, p[..j]) && forall k :: j < k <= |p| ==> Lasts(hash, p[..k]);
      assert Met(hash, es[..j]);
      forall k | j < k <= |es| ensures Lasts(hash, es[..k]) {
        assert k == |es| || (es[..k] == p[..k] && Lasts(hash, p[..k]));
      }
    }
    if Met(hash, es) {
      assert Met(hash, es[..|es|]);
    }
  }

  ghost predicate CountsStreaks(s: State, hash: string, es: seq<Event>) {
    && s.definitionHash == CurrentHash(hash, es)
    && s.consecutiveFiring == Streak(hash, es, True)
    && s.consecutiveOK == Streak(hash, es, False)
    && s.consecutiveErrors == Streak(hash, es, Unknown)
  }

  /** The state after a run, field by field, in terms of the run alone. */
  ghost predicate Reflects(s: State, hash: string, es: seq<Event>) {
    && CountsStreaks(s, hash, es)
    && (s.phase == PhaseFiring <==> InEpisode(hash, es))
    && (s.phase == PhasePending <==> Holding(hash, es))
    && (s.phase == PhaseInvalid <==> Shelved(hash, es))
    && (s.phase == PhaseFiring ==> s.incidentID != "")
    && (s.phase == PhaseFiring ==> s.consecutiveOK < RESOLVE_EVALUATIONS && s.consecutiveErrors < STALE_EVALUATIONS)
  }

  lemma TimelyPrefix(es: seq<Event>)
    requires es != [] && Timely(es)
    ensures Timely(es[..|es| - 1])
  {}

  lemma StepClock(s: State, w: Watch, ev: Evaluation, now: int)
    ensures Step(s, w, ev, now).state.lastEvalAt == Some(now)
  {
    hide Watch.HoldEvaluations;
  }

  lemma {:induction false} LastEvaluation(l: Ledger, es: seq<Event>)
    requires Timely(es) && l.state.lastEvalAt == None
    ensures var at := Run(l, es).state.lastEvalAt;
            at.Some? ==> exists i :: 0 <= i < |es| && es[i].Evaluated? && es[i].now == at.value
  {
    hide Step;
    if es != [] {
      var p, e := es[..|es| - 1], es[|es| - 1];
      TimelyPrefix(es);
      LastEvaluation(l, p);
      if e.Evaluated? {
        StepClock(Run(l, p).state, e.w, e.ev, e.now);
      }
    }
  }

  lemma NeverOutdated(l: Ledger, es: seq<Event>)
    requires es != [] && Timely(es) && l.state.lastEvalAt == None && es[|es| - 1].Evaluated?
    ensures !Outdated(Run(l, es[..|es| - 1]).state, es[|es| - 1].now)
  {
    TimelyPrefix(es);
    LastEvaluation(l, es[..|es| - 1]);
  }

  /** What one step does to the counters: the verdict's own grows or starts over, the others stop. */
  lemma StepCounts(s: State, w: Watch, ev: Evaluation, now: int)
    ensures var t, same := Step(s, w, ev, now).state, s.definitionHash == w.definitionHash;
            && t.definitionHash == w.definitionHash
            && t.consecutiveFiring == Grown(ev.verdict == True, same, s.consecutiveFiring)
            && t.consecutiveOK == Grown(ev.verdict == False, same, s.consecutiveOK)
            && t.consecutiveErrors == Grown(ev.verdict == Unknown, same, s.consecutiveErrors)
  {
    hide Watch.HoldEvaluations;
  }

  lemma EmitsAppend(a: seq<Action>, x: Action)
    ensures forall k: Kind :: Emits(a + [x], k) <==> Emits(a, k) || x.kind == k
  {
    var b := a + [x];
    forall k: Kind | Emits(a, k) || x.kind == k ensures Emits(b, k) {
      if x.kind == k {
        assert b[|a|].kind == k;
      } else {
        var i :| 0 <= i < |a| && a[i].kind == k;
        assert b[i].kind == k;
      }
    }
  }

  lemma BeginEmits(s: State, w: Watch, ev: Evaluation, now: int)
    ensures var closes := s.definitionHash != w.definitionHash && s.phase == PhaseFiring && s.incidentID != "";
            forall k: Kind :: Emits(Begin(s, w, ev, now).actions, k) <==> closes && k == Close
  {
    if s.phase == PhaseFiring && s.definitionHash != w.definitionHash && s.incidentID != "" {
      assert Begin(s, w, ev, now).actions[0].kind == Close;
    }
  }

  function Grown(grows: bool, same: bool, n: nat): nat {
    if !grows then 0 else if same then n + 1 else 1
  }

  ghost predicate Sound(s: State) {
    s.phase == PhaseFiring ==>
      s.incidentID != "" && s.consecutiveOK < RESOLVE_EVALUATIONS && s.consecutiveErrors < STALE_EVALUATIONS
  }

  ghost predicate Going(s: State, w: Watch) {
    s.phase == PhaseFiring && s.definitionHash == w.definitionHash
  }

  /** What one step does to the phase, given where it started and the counters it reached. */
  lemma StepPhase(s: State, w: Watch, ev: Evaluation, now: int)
    requires Sound(s)
    ensures var t := Step(s, w, ev, now).state;
            var met := t.consecutiveFiring >= w.HoldEvaluations();
            var lasts := t.consecutiveOK < RESOLVE_EVALUATIONS && t.consecutiveErrors < STALE_EVALUATIONS
                         && (ev.verdict == True ==> met);
            && (t.phase == PhaseInvalid <==>
                  s.phase == PhaseInvalid && s.definitionHash == w.definitionHash && ev.verdict != True)
            && (t.phase == PhaseFiring <==> met || (Going(s, w) && lasts))
            && (t.phase == PhasePending <==> t.consecutiveFiring > 0 && !met)
            && (t.phase == PhaseFiring && (!met || Going(s, w)) ==> t.incidentID == s.incidentID)
  {
    hide Watch.HoldEvaluations;
  }

  /** What one step asks for. */
  lemma StepEmits(s: State, w: Watch, ev: Evaluation, now: int)
    requires Sound(s)
    ensures var m := Step(s, w, ev, now);
            var t := m.state;
            var met := t.consecutiveFiring >= w.HoldEvaluations();
            && (Emits(m.actions, Open) <==> met && !Going(s, w))
            && (Emits(m.actions, Repeat) <==> met && Going(s, w))
            && (Emits(m.actions, Resolve) <==> Going(s, w) && t.consecutiveOK == RESOLVE_EVALUATIONS)
            && (Emits(m.actions, Close) <==>
                  || (s.phase == PhaseFiring && !Going(s, w))
                  || (Going(s, w) && t.consecutiveErrors == STALE_EVALUATIONS))
  {
    hide Watch.HoldEvaluations, Emits;
    var a := Begin(s, w, ev, now).actions;
    BeginEmits(s, w, ev, now);
    EmitsAppend(a, Action(Open, now, NoReason));
    EmitsAppend(a, Action(Repeat, now, NoReason));
    EmitsAppend(a, Action(Resolve, now, Resolved));
    EmitsAppend(a, Action(Close, now, Stale));
  }

  lemma EvaluationUnfolds(hash: string, p: seq<Event>, e: Event)
    requires e.Evaluated?
    ensures var es, same := p + [e], e.w.definitionHash == CurrentHash(hash, p);
            && es[..|es| - 1] == p && es[|es| - 1] == e
            && CurrentHash(hash, es) == e.w.definitionHash && (SameDefinition(hash, es) <==> same)
            && (forall t: Truth :: Streak(hash, es, t) == Grown(e.ev.verdict == t, same, Streak(hash, p, t)))
            && (Shelved(hash, es) <==> e.ev.verdict != True && same && Shelved(hash, p))
  {
    var es := p + [e];
    assert es[..|es| - 1] == p && es[|es| - 1] == e;
  }

  lemma OtherUnfolds(hash: string, p: seq<Event>, e: Event)
    requires !e.Evaluated?
    ensures var es := p + [e];
            && es[..|es| - 1] == p && es[|es| - 1] == e
            && CurrentHash(hash, es) == CurrentHash(hash, p) && (Shelved(hash, es) <==> e.Parked?)
            && (forall t: Truth :: Streak(hash, es, t) == if e.Parked? then Streak(hash, p, t) else 0)
  {
    var es := p + [e];
    assert es[..|es| - 1] == p && es[|es| - 1] == e;
  }

  /** One more evaluation keeps the state a reflection of the history, and announces what it should. */
  lemma StepReflects(l: Ledger, hash: string, p: seq<Event>, e: Event)
    requires e.Evaluated? && e.minted != "" && !Outdated(l.state, e.now)
    requires Reflects(l.state, hash, p)
    ensures Reflects(AdvanceBy(l, e).ledger.state, hash, p + [e])
    ensures Announces(AdvanceBy(l, e).actions, hash, p + [e])
  {
    hide InEpisode, Watch.HoldEvaluations, Step, Emits, Streak, CurrentHash, SameDefinition, Shelved;
    var es := p + [e];
    EvaluationUnfolds(hash, p, e);
    StepCounts(l.state, e.w, e.ev, e.now);
    StepPhase(l.state, e.w, e.ev, e.now);
    StepEmits(l.state, e.w, e.ev, e.now);
    EpisodeUnfolds(hash, es);
  }

  /** What is announced after a run's last event, in terms of the run alone. */
  ghost predicate Announces(actions: seq<Action>, hash: string, es: seq<Event>)
    requires es != [] && es[|es| - 1].Evaluated?
  {
    var p := es[..|es| - 1];
    var same := SameDefinition(hash, es);
    var going := InEpisode(hash, p) && same;
    && (Emits(actions, Open) <==> Met(hash, es) && !going)
    && (Emits(actions, Repeat) <==> Met(hash, es) && going)
    && (Emits(actions, Resolve) <==> going && Streak(hash, es, False) == RESOLVE_EVALUATIONS)
    && (Emits(actions, Close) <==>
          || (InEpisode(hash, p) && !same)
          || (going && Streak(hash, es, Unknown) == STALE_EVALUATIONS))
  }

  lemma RetireReflects(l: Ledger, hash: string, p: seq<Event>, e: Event)
    requires e.Retired? && Reflects(l.state, hash, p)
    ensures Reflects(AdvanceBy(l, e).ledger.state, hash, p + [e])
  {
    hide InEpisode, Streak, CurrentHash, Shelved;
    var es := p + [e];
    OtherUnfolds(hash, p, e);
    EpisodeUnfolds(hash, es);
  }

  lemma ParkReflects(l: Ledger, hash: string, p: seq<Event>, e: Event)
    requires e.Parked? && Reflects(l.state, hash, p)
    ensures Reflects(AdvanceBy(l, e).ledger.state, hash, p + [e])
  {
    hide InEpisode, Streak, CurrentHash, Shelved;
    var es := p + [e];
    OtherUnfolds(hash, p, e);
    EpisodeUnfolds(hash, es);
  }

  /**
   The machine refines its history: after any run of evaluations, edits, retirements and parkings
   the counters are the lengths of the three streaks, the watch is firing exactly when some evaluation
   met the hold and nothing since ended the episode, pending exactly while a hold is under way, and
   invalid exactly while it is parked.
   */
  lemma {:induction false} StateIsHistory(hash: string, es: seq<Event>)
    requires Timely(es)
    ensures Reflects(Run(NewLedger(hash), es).state, hash, es)
  {
    hide Watch.HoldEvaluations;
    if es != [] {
      var p, e := es[..|es| - 1], es[|es| - 1];
      assert es == p + [e];
      TimelyPrefix(es);
      StateIsHistory(hash, p);
      hide InEpisode, AdvanceBy, Reflects;
      if e.Evaluated? {
        NeverOutdated(NewLedger(hash), es);
        StepReflects(Run(NewLedger(hash), p), hash, p, e);
      } else if e.Retired? {
        RetireReflects(Run(NewLedger(hash), p), hash, p, e);
      } else {
        ParkReflects(Run(NewLedger(hash), p), hash, p, e);
      }
    }
  }

  /**
   And what it announces is history too: an opening exactly when the last evaluations of the
   current definition completed a hold outside an episode, a repeat exactly when they did inside
   one, a resolve at the second clean verdict in a row, a close at the thirtieth undecided one in a
   row or at an edit.
   */
  lemma ActionsAreHistory(hash: string, es: seq<Event>)
    requires Timely(es) && es != [] && es[|es| - 1].Evaluated?
    ensures Announces(Said(NewLedger(hash), es), hash, es)
  {
    hide InEpisode, AdvanceBy, Reflects, Watch.HoldEvaluations, Announces;
    var p, e := es[..|es| - 1], es[|es| - 1];
    assert es == p + [e];
    TimelyPrefix(es);
    StateIsHistory(hash, p);
    NeverOutdated(NewLedger(hash), es);
    StepReflects(Run(NewLedger(hash), p), hash, p, e);
  }

  /** An opening has a full hold behind it: that many evaluations in a row, all firing, all of its definition. */
  lemma OpeningHasItsHold(hash: string, es: seq<Event>)
    requires Timely(es) && es != [] && es[|es| - 1].Evaluated? && Emits(Said(NewLedger(hash), es), Open)
    ensures var us, e, n := Unparked(es), es[|es| - 1], es[|es| - 1].w.HoldEvaluations();
            && n <= |us|
            && forall i :: |us| - n <= i < |us| ==>
                 us[i].Evaluated? && us[i].ev.verdict == True && us[i].w.definitionHash == e.w.definitionHash
  {
    hide InEpisode, Watch.HoldEvaluations, Run, Said;
    ActionsAreHistory(hash, es);
    StreakIsLongestTail(hash, es, True);
  }

  /** After any evaluation exactly one of the three streaks is running. */
  lemma OneStreakRuns(hash: string, es: seq<Event>)
    requires Timely(es) && es != [] && es[|es| - 1].Evaluated?
    ensures var s := Run(NewLedger(hash), es).state;
            && (s.consecutiveFiring > 0 <==> es[|es| - 1].ev.verdict == True)
            && (s.consecutiveOK > 0 <==> es[|es| - 1].ev.verdict == False)
            && (s.consecutiveErrors > 0 <==> es[|es| - 1].ev.verdict == Unknown)
  {
    hide InEpisode, Run, Met, Lasts, Watch.HoldEvaluations;
    StateIsHistory(hash, es);
  }
}
