/**
 Running one service generation after another: the main loop, the generation's announcer, its
 service and the shutdown hook each take steps of their own, and readiness is what they all write.
 */
module Handover {
  import opened Options

  datatype Health = Starting | Ready | Reloading | Draining | Stopped

  /** What a hosted service was last told about running flows. */
  datatype Told = Never | Withdrawn | Given(generation: nat)

  /** What the main loop does once a generation has settled. */
  datatype Next = Rebuild | Finish | Failed | Quiet

  datatype Main =
    | Loading | LoadFailed
    | Selecting | Prompting | Cancelling
    | Awaiting(state: Health, next: Next)
    | SettleCancel(state: Health, next: Next)
    | SettleWait(state: Health, next: Next)
    | Withdrawing(i: nat, state: Health, next: Next)
    | SettleWrite(state: Health, next: Next)
    | RunFailed | AwaitingChange | Returned

  datatype Announcer = Gone | Listening | Rechecking | Telling(i: nat) | Opening

  datatype Service = Absent | Building | Serving | Exited(failed: bool)

  /** The writes others can see, and the moments a generation settled. */
  datatype Mark = Announced(generation: nat, hosted: nat) | OpenedGate(generation: nat) | Settled(generation: nat)

  /** root is the process's context, cancelled the generation's own; log only remembers. */
  datatype State = State(
    watch: bool, hosted: nat, generation: nat, main: Main, announcer: Announcer, service: Service,
    root: bool, cancelled: bool, started: bool, hooked: bool,
    health: Health, told: seq<Told>, log: seq<Mark>)

  datatype Choice = LoadOk | LoadBad | SeesDone | SeesChange | SeesExit

  datatype Move = MainMove(choice: Choice) | AnnouncerMove(sawStart: bool) | ServiceMove(failed: bool) | Signal | Hook

  function Launch(watch: bool, hosted: nat): State {
    State(watch, hosted, 0, Loading, Gone, Absent, false, false, false, false, Starting, seq(hosted, _ => Never), [])
  }

  predicate Done(s: State) { s.root || s.cancelled }

  predicate MainEnabled(s: State, c: Choice) {
    match s.main
    case Loading => c == LoadOk || c == LoadBad
    case Selecting =>
      if s.watch then (c == SeesDone && s.root) || c == SeesChange || (c == SeesExit && s.service.Exited?)
      else c == SeesExit && s.service.Exited?
    case Awaiting(_, _) => s.service.Exited?
    case SettleWait(_, _) => s.announcer.Gone?
    case AwaitingChange => (c == SeesDone && s.root) || c == SeesChange
    case Returned => false
    case _ => true
  }

  predicate Enabled(s: State, m: Move) {
    match m
    case MainMove(c) => MainEnabled(s, c)
    case AnnouncerMove(sawStart) =>
      !s.announcer.Gone? && (s.announcer.Listening? ==> if sawStart then s.started else Done(s))
    case ServiceMove(_) => s.service.Building? || (s.service.Serving? && Done(s))
    case Signal => !s.root
    case Hook => s.root && !s.hooked
  }

  function ApplyMain(s: State, c: Choice): State
    requires MainEnabled(s, c)
  {
    match s.main
    case Loading =>
      if c == LoadBad then s.(main := if s.watch then LoadFailed else Returned)
      else s.(generation := s.generation + 1, cancelled := false, started := false,
              announcer := Listening, service := Building, main := Selecting)
    case LoadFailed => s.(health := Reloading, main := AwaitingChange)
    case Selecting =>
      if c == SeesDone then s.(main := Awaiting(Stopped, Finish))
      else if c == SeesChange then s.(main := Prompting)
      else s.(main := SettleCancel(if s.watch then Reloading else Stopped,
                                   if !s.watch then Finish else if s.service.failed then Failed else Quiet))
    case Prompting => s.(health := Reloading, main := Cancelling)
    case Cancelling => s.(cancelled := true, main := Awaiting(Reloading, Rebuild))
    case Awaiting(h, n) => s.(main := SettleCancel(h, n))
    case SettleCancel(h, n) => s.(cancelled := true, main := SettleWait(h, n))
    case SettleWait(h, n) => s.(main := Withdrawing(0, h, n))
    case Withdrawing(i, h, n) =>
      if i < |s.told| then s.(told := s.told[i := Withdrawn], main := Withdrawing(i + 1, h, n))
      else s.(main := SettleWrite(h, n))
    case SettleWrite(h, n) =>
      s.(health := h, log := s.log + [Settled(s.generation)],
         main := match n
                 case Rebuild => Loading case Finish => Returned case Failed => RunFailed case Quiet => AwaitingChange)
    case RunFailed => s.(health := Reloading, main := AwaitingChange)
    case AwaitingChange => s.(main := if c == SeesDone then Returned else Loading)
  }

  function ApplyAnnouncer(s: State, sawStart: bool): State
    requires Enabled(s, AnnouncerMove(sawStart))
  {
    match s.announcer
    case Listening => s.(announcer := if sawStart then Rechecking else Gone)
    case Rechecking => s.(announcer := if Done(s) then Gone else Telling(0))
    case Telling(i) =>
      if i < |s.told| then
        s.(told := s.told[i := Given(s.generation)], log := s.log + [Announced(s.generation, i)],
           announcer := Telling(i + 1))
      else s.(announcer := Opening)
    case Opening => s.(health := Ready, log := s.log + [OpenedGate(s.generation)], announcer := Gone)
  }

  function Apply(s: State, m: Move): State
    requires Enabled(s, m)
  {
    match m
    case MainMove(c) => ApplyMain(s, c)
    case AnnouncerMove(sawStart) => ApplyAnnouncer(s, sawStart)
    case ServiceMove(failed) =>
      if s.service.Serving? || failed then s.(service := Exited(failed)) else s.(service := Serving, started := true)
    case Signal => s.(root := true)
    case Hook => s.(health := Draining, hooked := true)
  }

  /** Any schedule: a move that cannot be taken where it is scheduled changes nothing. */
  function Run(s: State, ms: seq<Move>): State {
    if ms == [] then s
    else
      var t := Run(s, ms[..|ms| - 1]);
      if Enabled(t, ms[|ms| - 1]) then Apply(t, ms[|ms| - 1]) else t
  }

  // ----- invariants ----------------------------------------------------------------------------------

  /** Between generations: the last one, if there was one, has settled. */
  predicate Between(m: Main) {
    m.Loading? || m.LoadFailed? || m.RunFailed? || m.AwaitingChange? || m.Returned?
  }

  /** The generation's announcer has been waited for. */
  predicate PastWait(m: Main) { Between(m) || m.Withdrawing? || m.SettleWrite? }

  /** Before the generation is being settled. */
  predicate Front(m: Main) {
    m.Loading? || m.LoadFailed? || m.Selecting? || m.Prompting? || m.Cancelling?
  }

  predicate Targeting(m: Main) {
    m.Awaiting? || m.SettleCancel? || m.SettleWait? || m.Withdrawing? || m.SettleWrite?
  }

  /** Who may be running where the main loop is. */
  ghost predicate Placed(s: State) {
    && |s.told| == s.hosted
    && (PastWait(s.main) ==> s.announcer.Gone?)
    && (Targeting(s.main) ==> s.main.state != Ready)
    && (s.generation == 0 ==> Between(s.main))
  }

  /**
   What the hosted services were last told: this generation's flows at most, and none of them once it is
   withdrawn.
   */
  ghost predicate ToldOrderly(s: State) {
    && (forall i :: 0 <= i < |s.told| && s.told[i].Given? ==> s.told[i].generation == s.generation)
    && (Between(s.main) ==> forall i :: 0 <= i < |s.told| ==> !s.told[i].Given?)
    && (s.main.Withdrawing? ==> forall i :: 0 <= i < |s.told| && i < s.main.i ==> s.told[i] == Withdrawn)
    && (s.main.SettleWrite? || (s.generation > 0 && Between(s.main)) ==>
          forall i :: 0 <= i < |s.told| ==> s.told[i] == Withdrawn)
  }

  ghost predicate Closed(s: State) {
    Between(s.main) ==> s.health != Ready
  }

  /** A generation settles once, and nothing it announces comes after. */
  ghost predicate LogOrderly(s: State) {
    && (forall i :: 0 <= i < |s.log| ==> s.log[i].generation <= s.generation)
    && (forall i :: 0 <= i < |s.log| && s.log[i].Settled? && s.log[i].generation == s.generation ==> Between(s.main))
    && (forall i, j :: 0 <= i < j < |s.log| && s.log[i].Settled? ==> s.log[j].generation > s.log[i].generation)
  }

  ghost predicate OpenedAt(log: seq<Mark>, i: int, generation: nat) {
    0 <= i < |log| && log[i] == OpenedGate(generation)
    && forall j :: i < j < |log| ==> !log[j].Settled?
  }

  /** The gate is open only if this generation's announcer opened it, and it has not settled since. */
  ghost predicate GateOrderly(s: State) {
    s.health == Ready ==> exists i :: OpenedAt(s.log, i, s.generation)
  }

  ghost predicate Orderly(s: State) {
    Placed(s) && ToldOrderly(s) && Closed(s) && LogOrderly(s) && GateOrderly(s)
  }

  lemma LaunchIsOrderly(watch: bool, hosted: nat)
    ensures Orderly(Launch(watch, hosted))
  {}

  /** The service, the signal and the shutdown hook move nothing the main loop or the announcer go by. */
  lemma ElsewhereFrame(s: State, m: Move)
    requires Enabled(s, m) && !m.MainMove? && !m.AnnouncerMove?
    ensures var t := Apply(s, m);
            && t.main == s.main && t.announcer == s.announcer && t.told == s.told && t.generation == s.generation
            && t.hosted == s.hosted && t.log == s.log && (t.health == Ready ==> s.health == Ready)
  {
    hide ApplyMain, ApplyAnnouncer;
  }

  lemma PlacedByAnnouncer(s: State, sawStart: bool)
    requires Enabled(s, AnnouncerMove(sawStart)) && Placed(s)
    ensures Placed(ApplyAnnouncer(s, sawStart))
  {}

  lemma PlacedElsewhere(s: State, m: Move)
    requires Enabled(s, m) && Placed(s) && !m.MainMove? && !m.AnnouncerMove?
    ensures Placed(Apply(s, m))
  {
    hide Apply, Enabled;
    ElsewhereFrame(s, m);
  }

  lemma PlacedKept(s: State, m: Move)
    requires Enabled(s, m) && Placed(s)
    ensures Placed(Apply(s, m))
  {
    hide ApplyMain, ApplyAnnouncer, Placed;
    match m {
      case MainMove(c) => PlacedByMain(s, c);
      case AnnouncerMove(sawStart) => PlacedByAnnouncer(s, sawStart);
      case _ => PlacedElsewhere(s, m);
    }
  }

  lemma PlacedInFront(s: State, c: Choice)
    requires MainEnabled(s, c) && Placed(s) && Front(s.main) && !s.main.Selecting?
    ensures Placed(ApplyMain(s, c))
  {}

  lemma PlacedWhenSelecting(s: State, c: Choice)
    requires MainEnabled(s, c) && Placed(s) && s.main.Selecting?
    ensures Placed(ApplyMain(s, c))
  {}

  lemma PlacedWhileSettling(s: State, c: Choice)
    requires MainEnabled(s, c) && Placed(s) && (s.main.Awaiting? || s.main.SettleCancel? || s.main.SettleWait?)
    ensures Placed(ApplyMain(s, c))
  {}

  lemma PlacedWhileWithdrawing(s: State, c: Choice)
    requires MainEnabled(s, c) && Placed(s) && s.main.Withdrawing?
    ensures Placed(ApplyMain(s, c))
  {}

  lemma PlacedWhenSettled(s: State, c: Choice)
    requires MainEnabled(s, c) && Placed(s) && s.main.SettleWrite?
    ensures Placed(ApplyMain(s, c))
  {}

  lemma PlacedBehind(s: State, c: Choice)
    requires MainEnabled(s, c) && Placed(s) && (s.main.RunFailed? || s.main.AwaitingChange?)
    ensures Placed(ApplyMain(s, c))
  {}

  lemma PlacedByMain(s: State, c: Choice)
    requires MainEnabled(s, c) && Placed(s)
    ensures Placed(ApplyMain(s, c))
  {
    hide Placed, ApplyMain;
    if s.main.Selecting? {
      PlacedWhenSelecting(s, c);
    } else if Front(s.main) {
      PlacedInFront(s, c);
    } else if s.main.Withdrawing? {
      PlacedWhileWithdrawing(s, c);
    } else if s.main.SettleWrite? {
      PlacedWhenSettled(s, c);
    } else if Targeting(s.main) {
      PlacedWhileSettling(s, c);
    } else {
      PlacedBehind(s, c);
    }
  }

  lemma ToldInFront(s: State, c: Choice)
    requires MainEnabled(s, c) && Placed(s) && ToldOrderly(s) && Front(s.main) && !s.main.Selecting?
    ensures ToldOrderly(ApplyMain(s, c))
  {}

  lemma ToldWhenSelecting(s: State, c: Choice)
    requires MainEnabled(s, c) && Placed(s) && ToldOrderly(s) && s.main.Selecting?
    ensures ToldOrderly(ApplyMain(s, c))
  {}

  lemma ToldWhileSettling(s: State, c: Choice)
    requires MainEnabled(s, c) && Placed(s) && ToldOrderly(s)
    requires s.main.Awaiting? || s.main.SettleCancel? || s.main.SettleWait?
    ensures ToldOrderly(ApplyMain(s, c))
  {}

  lemma ToldWhenSettled(s: State, c: Choice)
    requires MainEnabled(s, c) && Placed(s) && ToldOrderly(s) && s.main.SettleWrite?
    ensures ToldOrderly(ApplyMain(s, c))
  {}

  lemma ToldWhileWithdrawing(s: State, c: Choice)
    requires MainEnabled(s, c) && ToldOrderly(s) && s.main.Withdrawing?
    ensures ToldOrderly(ApplyMain(s, c))
  {
    var i, t := s.main.i, ApplyMain(s, c);
    assert t.generation == s.generation && !Between(t.main);
    assert i < |s.told| ==> t.told == s.told[i := Withdrawn] && t.main.Withdrawing? && t.main.i == i + 1;
  }

  lemma ToldBehind(s: State, c: Choice)
    requires MainEnabled(s, c) && Placed(s) && ToldOrderly(s) && (s.main.RunFailed? || s.main.AwaitingChange?)
    ensures ToldOrderly(ApplyMain(s, c))
  {}

  lemma ToldByMain(s: State, c: Choice)
    requires MainEnabled(s, c) && Placed(s) && ToldOrderly(s)
    ensures ToldOrderly(ApplyMain(s, c))
  {
    hide ToldOrderly, ApplyMain;
    if s.main.Selecting? {
      ToldWhenSelecting(s, c);
    } else if Front(s.main) {
      ToldInFront(s, c);
    } else if s.main.Withdrawing? {
      ToldWhileWithdrawing(s, c);
    } else if s.main.SettleWrite? {
      ToldWhenSettled(s, c);
    } else if Targeting(s.main) {
      ToldWhileSettling(s, c);
    } else {
      ToldBehind(s, c);
    }
  }

  lemma ToldByTelling(s: State, sawStart: bool)
    requires s.announcer.Telling? && Placed(s) && ToldOrderly(s)
    ensures ToldOrderly(ApplyAnnouncer(s, sawStart))
  {
    assert !PastWait(s.main);
  }

  lemma ToldByAnnouncer(s: State, sawStart: bool)
    requires Enabled(s, AnnouncerMove(sawStart)) && Placed(s) && ToldOrderly(s)
    ensures ToldOrderly(ApplyAnnouncer(s, sawStart))
  {
    hide ApplyAnnouncer;
    if s.announcer.Telling? {
      ToldByTelling(s, sawStart);
    } else {
      QuietAnnouncer(s, sawStart);
    }
  }

  lemma QuietAnnouncer(s: State, sawStart: bool)
    requires Enabled(s, AnnouncerMove(sawStart)) && !s.announcer.Telling?
    ensures var t := ApplyAnnouncer(s, sawStart); t.told == s.told && t.main == s.main && t.generation == s.generation
  {}

  lemma ToldElsewhere(s: State, m: Move)
    requires Enabled(s, m) && Placed(s) && ToldOrderly(s) && !m.MainMove? && !m.AnnouncerMove?
    ensures ToldOrderly(Apply(s, m))
  {
    hide Apply, Enabled;
    ElsewhereFrame(s, m);
  }

  lemma ToldKept(s: State, m: Move)
    requires Enabled(s, m) && Placed(s) && ToldOrderly(s)
    ensures ToldOrderly(Apply(s, m))
  {
    hide ApplyMain, ApplyAnnouncer, ToldOrderly;
    match m {
      case MainMove(c) => ToldByMain(s, c);
      case AnnouncerMove(sawStart) => ToldByAnnouncer(s, sawStart);
      case _ => ToldElsewhere(s, m);
    }
  }

  lemma ClosedInFront(s: State, c: Choice)
    requires MainEnabled(s, c) && Placed(s) && Closed(s) && Front(s.main) && !s.main.Selecting?
    ensures Closed(ApplyMain(s, c))
  {}

  lemma ClosedWhenSelecting(s: State, c: Choice)
    requires MainEnabled(s, c) && Placed(s) && Closed(s) && s.main.Selecting?
    ensures Closed(ApplyMain(s, c))
  {}

  lemma ClosedWhileSettling(s: State, c: Choice)
    requires MainEnabled(s, c) && Placed(s) && Closed(s)
    requires s.main.Awaiting? || s.main.SettleCancel? || s.main.SettleWait?
    ensures Closed(ApplyMain(s, c))
  {}

  lemma ClosedWhileWithdrawing(s: State, c: Choice)
    requires MainEnabled(s, c) && Placed(s) && Closed(s) && s.main.Withdrawing?
    ensures Closed(ApplyMain(s, c))
  {}

  lemma ClosedWhenSettled(s: State, c: Choice)
    requires MainEnabled(s, c) && Placed(s) && Closed(s) && s.main.SettleWrite?
    ensures Closed(ApplyMain(s, c))
  {}

  lemma ClosedBehind(s: State, c: Choice)
    requires MainEnabled(s, c) && Placed(s) && Closed(s) && (s.main.RunFailed? || s.main.AwaitingChange?)
    ensures Closed(ApplyMain(s, c))
  {}

  lemma ClosedByMain(s: State, c: Choice)
    requires MainEnabled(s, c) && Placed(s) && Closed(s)
    ensures Closed(ApplyMain(s, c))
  {
    hide Closed, ApplyMain;
    if s.main.Selecting? {
      ClosedWhenSelecting(s, c);
    } else if Front(s.main) {
      ClosedInFront(s, c);
    } else if s.main.Withdrawing? {
      ClosedWhileWithdrawing(s, c);
    } else if s.main.SettleWrite? {
      ClosedWhenSettled(s, c);
    } else if Targeting(s.main) {
      ClosedWhileSettling(s, c);
    } else {
      ClosedBehind(s, c);
    }
  }

  lemma ClosedByAnnouncer(s: State, sawStart: bool)
    requires Enabled(s, AnnouncerMove(sawStart)) && Placed(s) && Closed(s)
    ensures Closed(ApplyAnnouncer(s, sawStart))
  {}

  lemma ClosedElsewhere(s: State, m: Move)
    requires Enabled(s, m) && Placed(s) && Closed(s) && !m.MainMove? && !m.AnnouncerMove?
    ensures Closed(Apply(s, m))
  {
    hide Apply, Enabled;
    ElsewhereFrame(s, m);
  }

  lemma ClosedKept(s: State, m: Move)
    requires Enabled(s, m) && Placed(s) && Closed(s)
    ensures Closed(Apply(s, m))
  {
    hide ApplyMain, ApplyAnnouncer, Closed;
    match m {
      case MainMove(c) => ClosedByMain(s, c);
      case AnnouncerMove(sawStart) => ClosedByAnnouncer(s, sawStart);
      case _ => ClosedElsewhere(s, m);
    }
  }

  lemma LogAppend(s: State, t: State, mark: Mark)
    requires LogOrderly(s) && t.log == s.log + [mark] && t.generation == s.generation && mark.generation == s.generation
    requires forall i :: 0 <= i < |s.log| && s.log[i].Settled? ==> s.log[i].generation < s.generation
    requires mark.Settled? ==> Between(t.main)
    ensures LogOrderly(t)
  {}

  /** The main loop logs only as it settles, and numbers generations only as it loads one. */
  lemma MainFrame(s: State, c: Choice)
    requires MainEnabled(s, c) && !s.main.SettleWrite?
    ensures var t := ApplyMain(s, c);
            && t.log == s.log && t.generation >= s.generation
            && (t.generation != s.generation ==> Between(s.main) && s.main.Loading?)
            && (Between(s.main) && t.generation == s.generation ==> Between(t.main))
  {
    hide ApplyMain;
    if Front(s.main) {
      FrameInFront(s, c);
    } else {
      FrameBehind(s, c);
    }
  }

  lemma FrameInFront(s: State, c: Choice)
    requires MainEnabled(s, c) && Front(s.main)
    ensures var t := ApplyMain(s, c);
            && t.log == s.log && t.generation >= s.generation
            && (t.generation != s.generation ==> s.main.Loading?)
            && (Between(s.main) && t.generation == s.generation ==> Between(t.main))
  {}

  lemma FrameBehind(s: State, c: Choice)
    requires MainEnabled(s, c) && !Front(s.main) && !s.main.SettleWrite?
    ensures var t := ApplyMain(s, c);
            && t.log == s.log && t.generation == s.generation && (Between(s.main) ==> Between(t.main))
  {}

  lemma SettlingLogs(s: State, c: Choice)
    requires MainEnabled(s, c) && s.main.SettleWrite?
    ensures var t := ApplyMain(s, c);
            t.log == s.log + [Settled(s.generation)] && t.generation == s.generation && Between(t.main)
  {}

  lemma LogByMain(s: State, c: Choice)
    requires MainEnabled(s, c) && LogOrderly(s)
    ensures LogOrderly(ApplyMain(s, c))
  {
    hide ApplyMain, LogOrderly;
    if s.main.SettleWrite? {
      NothingSettledYet(s);
      SettlingLogs(s, c);
      LogAppend(s, ApplyMain(s, c), Settled(s.generation));
    } else {
      MainFrame(s, c);
      LogSame(s, ApplyMain(s, c));
    }
  }

  lemma LogSame(s: State, t: State)
    requires LogOrderly(s) && t.log == s.log && t.generation >= s.generation
    requires t.generation == s.generation && Between(s.main) ==> Between(t.main)
    ensures LogOrderly(t)
  {}

  lemma LogByAnnouncer(s: State, sawStart: bool)
    requires Enabled(s, AnnouncerMove(sawStart)) && Placed(s) && LogOrderly(s)
    ensures LogOrderly(ApplyAnnouncer(s, sawStart))
  {
    hide LogOrderly, ApplyAnnouncer;
    NothingSettledYet(s);
    LogGrowth(s, sawStart);
    var t := ApplyAnnouncer(s, sawStart);
    match Says(s) {
      case None => LogSame(s, t);
      case Some(mark) => LogAppend(s, t, mark);
    }
  }

  lemma NothingSettledYet(s: State)
    requires LogOrderly(s) && !Between(s.main)
    ensures forall i :: 0 <= i < |s.log| && s.log[i].Settled? ==> s.log[i].generation < s.generation
  {}

  lemma LogGrowth(s: State, sawStart: bool)
    requires Enabled(s, AnnouncerMove(sawStart))
    ensures var t := ApplyAnnouncer(s, sawStart);
            && t.generation == s.generation && t.main == s.main
            && match Says(s)
               case None => t.log == s.log
               case Some(mark) => t.log == s.log + [mark]
  {}

  /** What the announcer's next step says, if it says anything. */
  function Says(s: State): (r: Option<Mark>)
    ensures r.Some? ==> r.value.generation == s.generation && !r.value.Settled?
  {
    match s.announcer
    case Telling(i) => if i < |s.told| then Some(Announced(s.generation, i)) else None
    case Opening => Some(OpenedGate(s.generation))
    case _ => None
  }

  lemma LogKept(s: State, m: Move)
    requires Enabled(s, m) && Placed(s) && LogOrderly(s)
    ensures LogOrderly(Apply(s, m))
  {
    hide ApplyMain, ApplyAnnouncer;
    match m {
      case MainMove(c) => LogByMain(s, c);
      case AnnouncerMove(sawStart) => LogByAnnouncer(s, sawStart);
      case _ =>
    }
  }

  lemma GateByMain(s: State, c: Choice)
    requires MainEnabled(s, c) && Placed(s) && Closed(s) && GateOrderly(s)
    ensures GateOrderly(ApplyMain(s, c))
  {
    hide ApplyMain, OpenedAt;
    MainNeverOpens(s, c);
    if s.main.SettleWrite? {
      SettlingCloses(s, c);
    } else {
      MainFrame(s, c);
    }
  }

  lemma SettlingCloses(s: State, c: Choice)
    requires MainEnabled(s, c) && Placed(s) && s.main.SettleWrite?
    ensures ApplyMain(s, c).health != Ready
  {}

  lemma GateByAnnouncer(s: State, sawStart: bool)
    requires Enabled(s, AnnouncerMove(sawStart)) && GateOrderly(s)
    ensures GateOrderly(ApplyAnnouncer(s, sawStart))
  {
    var t := ApplyAnnouncer(s, sawStart);
    if s.announcer.Opening? {
      assert OpenedAt(t.log, |s.log|, t.generation);
    } else if s.health == Ready {
      var i :| OpenedAt(s.log, i, s.generation);
      assert OpenedAt(t.log, i, t.generation);
    }
  }

  lemma GateKept(s: State, m: Move)
    requires Enabled(s, m) && Placed(s) && Closed(s) && GateOrderly(s)
    ensures GateOrderly(Apply(s, m))
  {
    hide ApplyMain, ApplyAnnouncer;
    match m {
      case MainMove(c) => GateByMain(s, c);
      case AnnouncerMove(sawStart) => GateByAnnouncer(s, sawStart);
      case _ =>
    }
  }

  lemma OrderlyKept(s: State, m: Move)
    requires Enabled(s, m) && Orderly(s)
    ensures Orderly(Apply(s, m))
  {
    hide Placed, ToldOrderly, Closed, LogOrderly, GateOrderly, Apply, Enabled;
    PlacedKept(s, m);
    ToldKept(s, m);
    ClosedKept(s, m);
    LogKept(s, m);
    GateKept(s, m);
  }

  lemma {:induction false} RunIsOrderly(watch: bool, hosted: nat, ms: seq<Move>)
    ensures Orderly(Run(Launch(watch, hosted), ms))
  {
    hide Orderly, Apply, Enabled;
    if ms == [] {
      LaunchIsOrderly(watch, hosted);
    } else {
      RunIsOrderly(watch, hosted, ms[..|ms| - 1]);
      var t := Run(Launch(watch, hosted), ms[..|ms| - 1]);
      if Enabled(t, ms[|ms| - 1]) { OrderlyKept(t, ms[|ms| - 1]); }
    }
  }

  // ----- what it comes to ------------------------------------------------------------------------------

  /**
   In every interleaving: once a generation has settled, nothing it announced lands any more, in the
   gate or in any hosted service, and until the next one speaks every hosted service has last been
   told there is nothing running and readiness says no.
   */
  lemma SettledIsSettled(watch: bool, hosted: nat, ms: seq<Move>, i: nat, j: nat)
    requires var s := Run(Launch(watch, hosted), ms); i < j < |s.log| && s.log[i].Settled?
    ensures var s := Run(Launch(watch, hosted), ms); s.log[j].generation > s.log[i].generation
  {
    RunIsOrderly(watch, hosted, ms);
    hide Run;
  }

  lemma BetweenGenerationsNothingServes(watch: bool, hosted: nat, ms: seq<Move>)
    ensures var s := Run(Launch(watch, hosted), ms);
            Between(s.main) ==>
              && s.health != Ready && s.announcer.Gone?
              && forall i :: 0 <= i < |s.told| ==> s.told[i] == if s.generation == 0 then Never else Withdrawn
  {
    RunIsOrderly(watch, hosted, ms);
    NobodyToldYet(watch, hosted, ms);
    hide Run;
  }

  lemma {:induction false} NobodyToldYet(watch: bool, hosted: nat, ms: seq<Move>)
    ensures var s := Run(Launch(watch, hosted), ms);
            s.generation == 0 ==> forall i :: 0 <= i < |s.told| ==> s.told[i] == Never
  {
    if ms != [] {
      NobodyToldYet(watch, hosted, ms[..|ms| - 1]);
      RunIsOrderly(watch, hosted, ms[..|ms| - 1]);
      var t := Run(Launch(watch, hosted), ms[..|ms| - 1]);
      hide ToldOrderly, Closed, LogOrderly, GateOrderly, Apply, Enabled;
      if Enabled(t, ms[|ms| - 1]) { SilentUntilFirst(t, ms[|ms| - 1]); }
    }
  }

  lemma SilentMain(s: State, c: Choice)
    requires MainEnabled(s, c) && Placed(s)
    ensures var t := ApplyMain(s, c);
            t.generation >= s.generation && (t.generation == 0 ==> t.told == s.told)
  {
    if Targeting(s.main) { assert s.generation > 0; }
  }

  lemma SilentUntilFirst(s: State, m: Move)
    requires Enabled(s, m) && Placed(s)
    ensures Apply(s, m).generation >= s.generation
    ensures Apply(s, m).generation == 0 ==> Apply(s, m).told == s.told
  {
    hide ApplyMain;
    if m.MainMove? { SilentMain(s, m.choice); }
  }

  /** The gate reads ready only while the generation whose announcer opened it is unsettled. */
  lemma ReadyHasItsAnnouncer(watch: bool, hosted: nat, ms: seq<Move>)
    requires Run(Launch(watch, hosted), ms).health == Ready
    ensures var s := Run(Launch(watch, hosted), ms);
            exists i :: OpenedAt(s.log, i, s.generation)
  {
    RunIsOrderly(watch, hosted, ms);
    hide Run;
  }

  // ----- and where it does not hold ----------------------------------------------------------------------

  /** What an announcer that is past its second look will still do, whoever cancels meanwhile. */
  predicate Committed(a: Announcer) { a.Telling? || a.Opening? }

  /** Once the generation is cancelled nobody is newly committed, and only the committed open the gate. */
  lemma LateStep(s: State, m: Move)
    requires Enabled(s, m) && Placed(s) && Done(s)
    ensures Committed(Apply(s, m).announcer) ==> Committed(s.announcer)
    ensures (Apply(s, m).health == Ready && s.health != Ready) ==> s.announcer.Opening?
    ensures Apply(s, m).generation >= s.generation
    ensures Apply(s, m).generation == s.generation ==> Done(Apply(s, m))
  {
    hide ApplyMain;
    if m.MainMove? {
      MainNeverOpens(s, m.choice);
      DoneStays(s, m.choice);
    }
  }

  lemma DoneStays(s: State, c: Choice)
    requires MainEnabled(s, c) && Done(s)
    ensures var t := ApplyMain(s, c); t.generation >= s.generation && (t.generation == s.generation ==> Done(t))
  {}

  lemma {:induction false} UncommittedStaysShut(s: State, ms: seq<Move>)
    requires Placed(s) && Done(s)
    ensures var t := Run(s, ms);
            && Placed(t) && t.generation >= s.generation
            && (t.generation == s.generation ==>
                  && Done(t)
                  && (s.health != Ready && !Committed(s.announcer) ==> t.health != Ready && !Committed(t.announcer)))
  {
    hide Placed, Apply, Enabled, Done;
    if ms != [] {
      UncommittedStaysShut(s, ms[..|ms| - 1]);
      var t, m := Run(s, ms[..|ms| - 1]), ms[|ms| - 1];
      if Enabled(t, m) {
        PlacedKept(t, m);
        StepsUp(t, m);
        if t.generation == s.generation { LateStep(t, m); }
      }
    }
  }

  lemma StepsUp(s: State, m: Move)
    requires Enabled(s, m) && Placed(s)
    ensures Apply(s, m).generation >= s.generation
  {
    hide Apply, Enabled, Placed;
    SilentUntilFirst(s, m);
  }

  /** Left to itself a committed announcer tells every service and opens the gate. */
  lemma CommittedOpens(s: State) returns (ms: seq<Move>)
    requires Committed(s.announcer)
    ensures Run(s, ms).health == Ready && Run(s, ms).generation == s.generation
    decreases StepsLeft(s)
  {
    hide Run;
    var say := AnnouncerMove(true);
    var t := Apply(s, say);
    if s.announcer.Opening? {
      RunSnoc(s, [], say);
      RunNothing(s);
      ms := [] + [say];
    } else {
      var rest := CommittedOpens(t);
      RunSnoc(s, [], say);
      RunNothing(s);
      RunConcat(s, [] + [say], rest);
      ms := [] + [say] + rest;
    }
  }

  lemma RunNothing(s: State)
    ensures Run(s, []) == s
  {}

  /**
   Once a generation is cancelled, or the process told to stop, some schedule opens the gate again
   before the next generation exactly when the announcer is past its second look.
   */
  lemma LateReadyExactly(s: State)
    requires Placed(s) && Done(s) && s.health != Ready
    ensures (exists ms :: Run(s, ms).generation == s.generation && Run(s, ms).health == Ready)
            <==> Committed(s.announcer)
  {
    hide Run, Placed, Done;
    if Committed(s.announcer) {
      var ms := CommittedOpens(s);
    } else {
      forall ms | Run(s, ms).generation == s.generation ensures Run(s, ms).health != Ready {
        UncommittedStaysShut(s, ms);
      }
    }
  }

  ghost predicate OpensNothing(s: State, t: State) {
    (t.health == Ready ==> s.health == Ready) && (Committed(t.announcer) ==> Committed(s.announcer))
  }

  lemma FrontNeverOpens(s: State, c: Choice)
    requires MainEnabled(s, c) && (Front(s.main) || s.main.RunFailed? || s.main.AwaitingChange?)
    ensures OpensNothing(s, ApplyMain(s, c))
  {}

  lemma SettlingNeverOpens(s: State, c: Choice)
    requires MainEnabled(s, c) && Placed(s) && Targeting(s.main)
    ensures OpensNothing(s, ApplyMain(s, c))
  {}

  lemma MainNeverOpens(s: State, c: Choice)
    requires MainEnabled(s, c) && Placed(s)
    ensures OpensNothing(s, ApplyMain(s, c))
  {
    hide ApplyMain, OpensNothing;
    if Targeting(s.main) {
      SettlingNeverOpens(s, c);
    } else {
      FrontNeverOpens(s, c);
    }
  }

  /** So the shutdown hook's word is not always the last before the generation settles. */
  lemma ReadyCanFollowDraining() returns (ms: seq<Move>)
    ensures var s := Run(Launch(false, 0), ms);
            && s.root && s.hooked && s.health == Draining
            && Enabled(s, AnnouncerMove(true)) && Apply(s, AnnouncerMove(true)).health == Ready
  {
    hide Run, ApplyMain, ApplyAnnouncer;
    var l := Launch(false, 0);
    var a := l.(generation := 1, announcer := Listening, service := Building, main := Selecting);
    var b := a.(service := Serving, started := true);
    var c := b.(announcer := Opening);
    var d := c.(root := true, hooked := true, health := Draining);
    var look := AnnouncerMove(true);
    var first, looks, last := [MainMove(LoadOk), ServiceMove(false)], [look, look, look], [Signal, Hook];
    FirstIsLoaded(l, a);
    TwoMoves(l, first[0], first[1], a, b);
    LooksTwice(b);
    ThreeMoves(b, look, b.(announcer := Rechecking), b.(announcer := Telling(0)), c);
    TwoMoves(c, Signal, Hook, c.(root := true), d);
    RunConcat(b, looks, last);
    RunConcat(l, first, looks + last);
    ms := first + (looks + last);
    OpensTheGate(d);
  }

  lemma FirstIsLoaded(l: State, a: State)
    requires l == Launch(false, 0)
    requires a == l.(generation := 1, announcer := Listening, service := Building, main := Selecting)
    ensures Enabled(l, MainMove(LoadOk)) && Apply(l, MainMove(LoadOk)) == a
  {}

  lemma LooksTwice(b: State)
    requires b.announcer == Listening && b.started && !Done(b) && b.told == []
    ensures var look := AnnouncerMove(true);
            var r, t := b.(announcer := Rechecking), b.(announcer := Telling(0));
            && Enabled(b, look) && Apply(b, look) == r && Enabled(r, look) && Apply(r, look) == t
            && Enabled(t, look) && Apply(t, look) == b.(announcer := Opening)
  {}

  lemma OpensTheGate(s: State)
    requires s.announcer.Opening?
    ensures Enabled(s, AnnouncerMove(true)) && Apply(s, AnnouncerMove(true)).health == Ready
  {}

  lemma TwoMoves(s: State, m: Move, n: Move, a: State, b: State)
    requires Enabled(s, m) && Apply(s, m) == a && Enabled(a, n) && Apply(a, n) == b
    ensures Run(s, [m, n]) == b
  {
    hide Apply, Enabled;
    assert [m, n][..1] == [m] && [m][..0] == [];
    assert Run(s, []) == s && Run(s, [m]) == a;
  }

  lemma ThreeMoves(s: State, m: Move, a: State, b: State, c: State)
    requires Enabled(s, m) && Apply(s, m) == a && Enabled(a, m) && Apply(a, m) == b && Enabled(b, m) && Apply(b, m) == c
    ensures Run(s, [m, m, m]) == c
  {
    hide Apply, Enabled;
    TwoMoves(s, m, m, a, b);
    RunSnoc(s, [m, m], m);
    assert [m, m] + [m] == [m, m, m];
  }

  lemma {:induction false} RunConcat(s: State, a: seq<Move>, b: seq<Move>)
    ensures Run(s, a + b) == Run(Run(s, a), b)
  {
    hide Apply, Enabled;
    if b == [] {
      assert a + b == a;
    } else {
      assert (a + b)[..|a + b| - 1] == a + b[..|b| - 1];
      RunConcat(s, a, b[..|b| - 1]);
    }
  }

  lemma RunSnoc(s: State, ms: seq<Move>, m: Move)
    ensures Run(s, ms + [m]) == if Enabled(Run(s, ms), m) then Apply(Run(s, ms), m) else Run(s, ms)
  {
    hide Apply, Enabled;
    assert (ms + [m])[..|ms|] == ms;
  }

  // ----- settling comes to an end --------------------------------------------------------------------------

  function StepsLeft(s: State): nat {
    match s.announcer
    case Gone => 0
    case Opening => 1
    case Telling(i) => if i < |s.told| then |s.told| - i + 2 else 2
    case Rechecking => |s.told| + 3
    case Listening => |s.told| + 4
  }

  /**
   A main loop waiting for a cancelled generation's announcer never waits in vain: it can step, and soon
   it is gone.
   */
  lemma AnnouncerLeaves(s: State)
    requires Done(s) && !s.announcer.Gone?
    ensures exists sawStart :: Enabled(s, AnnouncerMove(sawStart))
    ensures forall sawStart :: Enabled(s, AnnouncerMove(sawStart)) ==>
              StepsLeft(Apply(s, AnnouncerMove(sawStart))) < StepsLeft(s)
  {
    assert Enabled(s, AnnouncerMove(false));
  }
}
