/**
 What holds in every interleaving of the buffered tracer: the accounting, the order of the stream,
 the in-band markers, the flushes, and the shutdown.
 */
module TracerRuns {
  import opened Options
  import opened Tracer

  // ----- tallies ---------------------------------------------------------------------------------

  /** What a log amounts to: writes that landed, markers that landed, failures, losses announced, records in order. */
  datatype Tally = Tally(records: nat, markers: nat, failures: nat, lost: int, order: seq<nat>)

  function TallyOf(log: seq<Call>): Tally {
    if log == [] then Tally(0, 0, 0, 0, []) else Tallied(TallyOf(log[..|log| - 1]), log[|log| - 1])
  }

  function Tallied(t: Tally, c: Call): Tally {
    match c
    case Wrote(n, ok) =>
      t.(records := t.records + One(ok), failures := t.failures + One(!ok), order := t.order + [n])
    case Marked(_, lost, _, ok) =>
      t.(markers := t.markers + One(ok), failures := t.failures + One(!ok), lost := t.lost + lost)
    case _ => t
  }

  lemma TallyAppend(log: seq<Call>, c: Call)
    ensures TallyOf(log + [c]) == Tallied(TallyOf(log), c)
  {
    assert (log + [c])[..|log|] == log;
  }

  function Numbered(p: Publisher): nat { One(p.Stamped? || p.Refused?) }

  /** How many publishers hold a number. */
  function InFlight(ps: seq<Publisher>): nat {
    if ps == [] then 0 else InFlight(ps[..|ps| - 1]) + Numbered(ps[|ps| - 1])
  }

  lemma {:induction false} InFlightUpdate(ps: seq<Publisher>, i: nat, p: Publisher)
    requires i < |ps|
    ensures InFlight(ps[i := p]) + Numbered(ps[i]) == InFlight(ps) + Numbered(p)
  {
    var init := ps[..|ps| - 1];
    if i == |ps| - 1 {
      assert ps[i := p][..|ps| - 1] == init;
    } else {
      assert ps[i := p][..|ps| - 1] == init[i := p];
      InFlightUpdate(init, i, p);
    }
  }

  /** The numbers in the drain's hand or written but not yet counted. */
  function AtDrain(d: Drain): nat {
    One(Job(d).Some?) + One(d.MarkerOut? || d.MarkerFailed? || d.Landed? || d.Lost?)
  }

  // ----- the invariants --------------------------------------------------------------------------

  /** The counters say what the log and the drops amount to, bar what the drain is about to count. */
  ghost predicate Counted(s: State) {
    var t := TallyOf(s.log);
    && t.records == s.emitted + One(s.drain.Landed?)
    && t.failures == s.failed + One(s.drain.Lost? || s.drain.MarkerFailed?)
    && |s.gone| == s.dropped && |s.queue| <= s.capacity
  }

  /** Everything ever numbered was written, failed, dropped, or is queued or in someone's hand. */
  ghost predicate Conserved(s: State) {
    s.seqNo == s.emitted + TallyOf(s.log).markers + s.failed + s.dropped
               + |s.queue| + InFlight(s.publishers) + AtDrain(s.drain)
  }

  function Carried(d: Drain): seq<nat> {
    match Job(d) case Some(n) => [n] case None => []
  }

  /** Records leave in the order they were queued: written, then in hand, then still waiting. */
  ghost predicate InOrder(s: State) {
    s.entered == TallyOf(s.log).order + (Carried(s.drain) + s.queue)
  }

  function Pending(d: Drain): int {
    match d
    case Marking(lost, _, _, _) => lost
    case MarkerOut(_, lost, _, _, _) => lost
    case _ => 0
  }

  /** The markers of a log each add their own loss to a running total. */
  predicate RunningTotals(log: seq<Call>) {
    forall i :: 0 <= i < |log| && log[i].Marked? ==> log[i].lost > 0 && log[i].total == TallyOf(log[..i + 1]).lost
  }

  ghost predicate Announced(s: State) {
    && s.reported == TallyOf(s.log).lost + Pending(s.drain) && s.reported <= s.dropped
    && (s.drain.Marking? || s.drain.MarkerOut? ==> s.drain.lost > 0 && s.drain.total == s.reported)
    && RunningTotals(s.log)
  }

  function LastMode(d: Drain): bool {
    match d
    case Remaining => true
    case Announcing(_, last) => last
    case Marking(_, _, _, last) => last
    case MarkerOut(_, _, _, _, last) => last
    case MarkerFailed(_, last) => last
    case Sending(_, last) => last
    case Landed(last) => last
    case Lost(last) => last
    case FinalFlush => true
    case Done => true
    case _ => false
  }

  /** Nothing was written since the last flush. */
  predicate Settled(log: seq<Call>) { log != [] && log[|log| - 1].Flushed? }

  /** The gates close in order, and the drain ends only once asked. */
  ghost predicate Gated(s: State) {
    && (s.open <==> s.closer.NotClosing?)
    && (s.quit <==> s.closer.Quitting? || s.closer.Finished?)
    && (LastMode(s.drain) ==> s.quit) && (Ending(s.drain) ==> LastMode(s.drain))
    && (s.closer.Finished? ==> s.drain.Done?)
  }

  /** The sink is closed at most once, by a finished Close, with no call after it. */
  ghost predicate ClosedLast(s: State) {
    && (forall i :: 0 <= i < |s.log| && s.log[i].SinkClosed? ==> s.closer.Finished? && i == |s.log| - 1)
    && (s.closer.Finished? ==> s.log != [] && s.log[|s.log| - 1].SinkClosed?)
  }

  /** Whenever the drain is about to block, or has ended, the last thing it did to the sink was flush it. */
  ghost predicate FlushedFirst(s: State) {
    && (s.drain.Waiting? ==> Settled(s.log))
    && (s.drain.Done? && !s.closer.Finished? ==> Settled(s.log))
    && (s.closer.Finished? ==> s.log != [] && Settled(s.log[..|s.log| - 1]))
  }

  /** Past the check that found the queue empty, with nothing left to write but a last marker. */
  predicate Ending(d: Drain) {
    match d
    case Announcing(job, _) => job.None?
    case Marking(_, _, job, _) => job.None?
    case MarkerOut(_, _, _, job, _) => job.None?
    case MarkerFailed(job, _) => job.None?
    case FinalFlush => true
    case Done => true
    case _ => false
  }

  /** A Close that met no publisher: none is let in again, so the drain's last look is the last word. */
  ghost predicate CalmEnd(s: State) {
    s.calm ==>
      && !s.open && (forall i :: 0 <= i < |s.publishers| ==> s.publishers[i].Idle?)
      && (Ending(s.drain) ==> s.queue == [])
      && (Ending(s.drain) && !s.drain.Announcing? ==> s.reported == s.dropped)
  }

  // ----- each is kept by every move --------------------------------------------------------------

  /** The call a move makes on the sink, if it makes one. */
  function CallOf(s: State, m: Move): Option<Call> {
    match m
    case DrainMove(ok, _) =>
      (match s.drain
       case Flushing => Some(Flushed)
       case FinalFlush => Some(Flushed)
       case MarkerOut(n, lost, total, _, _) => Some(Marked(n, lost, total, ok))
       case Sending(n, _) => Some(Wrote(n, ok))
       case _ => None)
    case CloseMove => if s.closer.Quitting? then Some(SinkClosed) else None
    case _ => None
  }

  lemma LogStep(s: State, m: Move)
    requires Enabled(s, m)
    ensures Apply(s, m).log == match CallOf(s, m) case Some(c) => s.log + [c] case None => s.log
    ensures TallyOf(Apply(s, m).log)
            == match CallOf(s, m) case Some(c) => Tallied(TallyOf(s.log), c) case None => TallyOf(s.log)
  {
    hide TallyOf, Tallied;
    if CallOf(s, m).Some? { TallyAppend(s.log, CallOf(s, m).value); }
  }

  lemma CountedBySend(s: State, m: Move)
    requires Enabled(s, m) && m.DrainMove? && (s.drain.Sending? || s.drain.MarkerOut?) && Counted(s)
    ensures Counted(Apply(s, m))
  {
    hide TallyOf;
    LogStep(s, m);
  }

  lemma CountedByFlush(s: State, m: Move)
    requires Enabled(s, m) && CallOf(s, m).Some? && (m.DrainMove? ==> s.drain.Flushing? || s.drain.FinalFlush?)
    requires Counted(s)
    ensures Counted(Apply(s, m))
  {
    hide TallyOf;
    LogStep(s, m);
  }

  lemma CountedByCall(s: State, m: Move)
    requires Enabled(s, m) && CallOf(s, m).Some? && Counted(s)
    ensures Counted(Apply(s, m))
  {
    hide Counted, Apply;
    if m.DrainMove? && (s.drain.Sending? || s.drain.MarkerOut?) {
      CountedBySend(s, m);
    } else {
      CountedByFlush(s, m);
    }
  }

  lemma QuietMoves(s: State, m: Move)
    requires Enabled(s, m) && CallOf(s, m).None?
    ensures m.DrainMove? ==>
              !s.drain.Flushing? && !s.drain.FinalFlush? && !s.drain.MarkerOut? && !s.drain.Sending? && !s.drain.Done?
    ensures m.CloseMove? ==> s.closer.NotClosing? || s.closer.Shut?
  {}

  lemma CountedQuietly(s: State, m: Move)
    requires Enabled(s, m) && CallOf(s, m).None? && m.DrainMove? && Counted(s)
    ensures Counted(Apply(s, m))
  {
    hide TallyOf, CallOf, Written;
    QuietMoves(s, m);
  }

  lemma CountedElsewhere(s: State, m: Move)
    requires Enabled(s, m) && CallOf(s, m).None? && !m.DrainMove? && Counted(s)
    ensures Counted(Apply(s, m))
  {
    hide TallyOf, CallOf, ApplyDrain;
    QuietMoves(s, m);
  }

  lemma CountedKept(s: State, m: Move)
    requires Enabled(s, m) && Counted(s)
    ensures Counted(Apply(s, m))
  {
    hide Counted, Apply, Enabled;
    if CallOf(s, m).Some? {
      CountedByCall(s, m);
    } else if m.DrainMove? {
      CountedQuietly(s, m);
    } else {
      CountedElsewhere(s, m);
    }
  }

  lemma ConservedByPublisher(s: State, m: Move)
    requires Enabled(s, m) && !m.DrainMove? && !m.CloseMove? && Conserved(s)
    ensures Conserved(Apply(s, m))
  {
    hide TallyOf, InFlight, ApplyDrain;
    InFlightUpdate(s.publishers, m.i, Apply(s, m).publishers[m.i]);
    assert s.publishers[m.i := s.publishers[m.i]] == s.publishers;
    var t := Apply(s, m);
    assert t.publishers == s.publishers[m.i := t.publishers[m.i]];
  }

  lemma ConservedBySend(s: State, m: Move)
    requires Enabled(s, m) && m.DrainMove? && (s.drain.Sending? || s.drain.MarkerOut?) && Conserved(s)
    ensures Conserved(Apply(s, m))
  {
    hide TallyOf, InFlight;
    LogStep(s, m);
  }

  lemma ConservedByFlush(s: State, m: Move)
    requires Enabled(s, m) && CallOf(s, m).Some? && (m.DrainMove? ==> s.drain.Flushing? || s.drain.FinalFlush?)
    requires Conserved(s)
    ensures Conserved(Apply(s, m))
  {
    hide TallyOf, InFlight;
    LogStep(s, m);
  }

  lemma ConservedByCall(s: State, m: Move)
    requires Enabled(s, m) && CallOf(s, m).Some? && Conserved(s)
    ensures Conserved(Apply(s, m))
  {
    hide Conserved, Apply;
    if m.DrainMove? && (s.drain.Sending? || s.drain.MarkerOut?) {
      ConservedBySend(s, m);
    } else {
      ConservedByFlush(s, m);
    }
  }

  /** The numbering is in step with the counters, the queue and what the drain holds. */
  ghost predicate InStep(s: State, t: State) {
    t.seqNo + s.emitted + s.failed + |s.queue| + AtDrain(s.drain)
    == s.seqNo + t.emitted + t.failed + |t.queue| + AtDrain(t.drain)
  }

  lemma AnnouncingInStep(s: State, ok: bool, pick: bool)
    requires s.drain.Announcing?
    ensures InStep(s, ApplyDrain(s, ok, pick))
  {}

  lemma MarkingInStep(s: State, ok: bool, pick: bool)
    requires s.drain.Marking? || s.drain.MarkerFailed?
    ensures InStep(s, ApplyDrain(s, ok, pick))
  {}

  lemma CountingInStep(s: State, ok: bool, pick: bool)
    requires s.drain.Landed? || s.drain.Lost?
    ensures InStep(s, ApplyDrain(s, ok, pick))
  {}

  lemma TakingInStep(s: State, ok: bool, pick: bool)
    requires Enabled(s, DrainMove(ok, pick)) && (s.drain.Top? || s.drain.Waiting? || s.drain.Remaining?)
    ensures InStep(s, ApplyDrain(s, ok, pick))
  {}

  /** A move that does not call the sink keeps the sum. */
  lemma AtDrainAfter(s: State, ok: bool, pick: bool)
    requires Enabled(s, DrainMove(ok, pick))
    requires !s.drain.Flushing? && !s.drain.FinalFlush? && !s.drain.MarkerOut? && !s.drain.Sending?
    ensures InStep(s, ApplyDrain(s, ok, pick))
  {
    hide InStep, ApplyDrain;
    if s.drain.Announcing? {
      AnnouncingInStep(s, ok, pick);
    } else if s.drain.Marking? || s.drain.MarkerFailed? {
      MarkingInStep(s, ok, pick);
    } else if s.drain.Landed? || s.drain.Lost? {
      CountingInStep(s, ok, pick);
    } else {
      TakingInStep(s, ok, pick);
    }
  }

  lemma DrainLeaves(s: State, ok: bool, pick: bool)
    requires Enabled(s, DrainMove(ok, pick))
    requires !s.drain.Flushing? && !s.drain.FinalFlush? && !s.drain.MarkerOut? && !s.drain.Sending?
    ensures var t := ApplyDrain(s, ok, pick);
            t.log == s.log && t.publishers == s.publishers && t.dropped == s.dropped
  {}

  lemma ConservedKept(s: State, m: Move)
    requires Enabled(s, m) && Conserved(s)
    ensures Conserved(Apply(s, m))
  {
    hide TallyOf, InFlight, CallOf, ApplyDrain, AtDrain;
    if CallOf(s, m).Some? {
      ConservedByCall(s, m);
    } else if m.DrainMove? {
      QuietMoves(s, m);
      AtDrainAfter(s, m.ok, m.pick);
      DrainLeaves(s, m.ok, m.pick);
    } else if m.CloseMove? {
      QuietMoves(s, m);
    } else {
      ConservedByPublisher(s, m);
    }
  }

  lemma InOrderWhenOffered(s: State, i: nat)
    requires Enabled(s, Offer(i)) && InOrder(s)
    ensures InOrder(Apply(s, Offer(i)))
  {
    hide TallyOf, Carried;
    var n, a, b := s.publishers[i].n, TallyOf(s.log).order, Carried(s.drain);
    assert (a + (b + s.queue)) + [n] == a + (b + (s.queue + [n]));
  }

  lemma InOrderWhenTaken(s: State, last: bool)
    requires s.queue != [] && Carried(s.drain) == [] && InOrder(s)
    ensures InOrder(Take(s, last))
  {
    hide TallyOf;
    assert [] + s.queue == [s.queue[0]] + s.queue[1..];
  }

  lemma InOrderWhenSent(order: seq<nat>, n: nat, queue: seq<nat>)
    ensures order + ([n] + queue) == (order + [n]) + ([] + queue)
  {}

  lemma InOrderBySend(s: State, ok: bool, pick: bool)
    requires s.drain.Sending? && InOrder(s)
    ensures InOrder(ApplyDrain(s, ok, pick))
  {
    hide TallyOf;
    TallyAppend(s.log, Wrote(s.drain.n, ok));
    InOrderWhenSent(TallyOf(s.log).order, s.drain.n, s.queue);
  }

  lemma InOrderByLook(s: State, ok: bool, pick: bool)
    requires Enabled(s, DrainMove(ok, pick)) && (s.drain.Top? || s.drain.Waiting? || s.drain.Remaining?) && InOrder(s)
    ensures InOrder(ApplyDrain(s, ok, pick))
  {
    hide TallyOf, Take;
    if s.queue != [] {
      InOrderWhenTaken(s, false);
      InOrderWhenTaken(s, true);
    }
  }

  lemma InOrderByMarker(s: State, ok: bool, pick: bool)
    requires s.drain.Announcing? || s.drain.Marking? || s.drain.MarkerOut? || s.drain.MarkerFailed?
    requires InOrder(s)
    ensures InOrder(ApplyDrain(s, ok, pick))
  {
    hide TallyOf;
    if s.drain.MarkerOut? {
      TallyAppend(s.log, Marked(s.drain.n, s.drain.lost, s.drain.total, ok));
    }
  }

  lemma InOrderByRest(s: State, ok: bool, pick: bool)
    requires s.drain.Flushing? || s.drain.FinalFlush? || s.drain.Landed? || s.drain.Lost?
    requires InOrder(s)
    ensures InOrder(ApplyDrain(s, ok, pick))
  {
    hide TallyOf;
    TallyAppend(s.log, Flushed);
  }

  lemma InOrderByDrain(s: State, m: Move)
    requires Enabled(s, m) && m.DrainMove? && InOrder(s)
    ensures InOrder(Apply(s, m))
  {
    hide InOrder, ApplyDrain;
    if s.drain.Sending? {
      InOrderBySend(s, m.ok, m.pick);
    } else if s.drain.Top? || s.drain.Waiting? || s.drain.Remaining? {
      InOrderByLook(s, m.ok, m.pick);
    } else if s.drain.Announcing? || s.drain.Marking? || s.drain.MarkerOut? || s.drain.MarkerFailed? {
      InOrderByMarker(s, m.ok, m.pick);
    } else {
      InOrderByRest(s, m.ok, m.pick);
    }
  }

  lemma InOrderKept(s: State, m: Move)
    requires Enabled(s, m) && InOrder(s)
    ensures InOrder(Apply(s, m))
  {
    hide TallyOf, ApplyDrain;
    if m.DrainMove? {
      InOrderByDrain(s, m);
    } else if m.Offer? {
      InOrderWhenOffered(s, m.i);
    } else if m.CloseMove? {
      LogStep(s, m);
    }
  }

  lemma RunningTotalsAppend(log: seq<Call>, c: Call)
    requires RunningTotals(log) && (c.Marked? ==> c.lost > 0 && c.total == TallyOf(log).lost + c.lost)
    ensures RunningTotals(log + [c])
  {
    hide TallyOf;
    var more := log + [c];
    TallyAppend(log, c);
    forall i | 0 <= i < |more| && more[i].Marked?
      ensures more[i].lost > 0 && more[i].total == TallyOf(more[..i + 1]).lost
    {
      if i < |log| {
        assert more[..i + 1] == log[..i + 1];
      } else {
        assert more[..i + 1] == more;
      }
    }
  }

  lemma AnnouncedByMarker(s: State, ok: bool, pick: bool)
    requires s.drain.Announcing? || s.drain.Marking? || s.drain.MarkerOut? || s.drain.MarkerFailed?
    requires Announced(s)
    ensures Announced(ApplyDrain(s, ok, pick))
  {
    hide TallyOf, RunningTotals;
    if s.drain.MarkerOut? {
      var c := Marked(s.drain.n, s.drain.lost, s.drain.total, ok);
      TallyAppend(s.log, c);
      RunningTotalsAppend(s.log, c);
    }
  }

  lemma AnnouncedByRest(s: State, ok: bool, pick: bool)
    requires Enabled(s, DrainMove(ok, pick)) && Announced(s)
    requires !(s.drain.Announcing? || s.drain.Marking? || s.drain.MarkerOut? || s.drain.MarkerFailed?)
    ensures Announced(ApplyDrain(s, ok, pick))
  {
    hide TallyOf, RunningTotals;
    TallyAppend(s.log, Flushed);
    RunningTotalsAppend(s.log, Flushed);
    if s.drain.Sending? {
      TallyAppend(s.log, Wrote(s.drain.n, ok));
      RunningTotalsAppend(s.log, Wrote(s.drain.n, ok));
    }
  }

  lemma AnnouncedElsewhere(s: State, m: Move)
    requires Enabled(s, m) && !m.DrainMove? && Announced(s)
    ensures Announced(Apply(s, m))
  {
    hide TallyOf, RunningTotals, ApplyDrain;
    TallyAppend(s.log, SinkClosed);
    RunningTotalsAppend(s.log, SinkClosed);
  }

  lemma AnnouncedKept(s: State, m: Move)
    requires Enabled(s, m) && Announced(s)
    ensures Announced(Apply(s, m))
  {
    hide Announced, ApplyDrain;
    if !m.DrainMove? {
      AnnouncedElsewhere(s, m);
    } else if s.drain.Announcing? || s.drain.Marking? || s.drain.MarkerOut? || s.drain.MarkerFailed? {
      AnnouncedByMarker(s, m.ok, m.pick);
    } else {
      AnnouncedByRest(s, m.ok, m.pick);
    }
  }

  lemma GatedByDrain(s: State, ok: bool, pick: bool)
    requires Enabled(s, DrainMove(ok, pick)) && Gated(s)
    ensures Gated(ApplyDrain(s, ok, pick))
  {}

  lemma GatedKept(s: State, m: Move)
    requires Enabled(s, m) && Gated(s)
    ensures Gated(Apply(s, m))
  {
    hide ApplyDrain;
    if m.DrainMove? { GatedByDrain(s, m.ok, m.pick); }
  }

  lemma ClosedLastKept(s: State, m: Move)
    requires Enabled(s, m) && Gated(s) && ClosedLast(s)
    ensures ClosedLast(Apply(s, m))
  {
    hide TallyOf, Tallied;
    LogStep(s, m);
  }

  lemma FlushedByFlush(s: State, ok: bool, pick: bool)
    requires s.drain.Flushing? || s.drain.FinalFlush?
    requires FlushedFirst(s) && !s.closer.Finished?
    ensures FlushedFirst(ApplyDrain(s, ok, pick))
  {}

  lemma LookingDoesNotBlock(s: State, ok: bool, pick: bool)
    requires Enabled(s, DrainMove(ok, pick)) && (s.drain.Top? || s.drain.Waiting? || s.drain.Remaining?)
    ensures var t := ApplyDrain(s, ok, pick); !t.drain.Waiting? && !t.drain.Done? && t.closer == s.closer
  {}

  lemma AnnouncingDoesNotBlock(s: State, ok: bool, pick: bool)
    requires s.drain.Announcing? || s.drain.Marking? || s.drain.MarkerOut? || s.drain.MarkerFailed?
    ensures var t := ApplyDrain(s, ok, pick); !t.drain.Waiting? && !t.drain.Done? && t.closer == s.closer
  {}

  lemma SendingDoesNotBlock(s: State, ok: bool, pick: bool)
    requires s.drain.Sending? || s.drain.Landed? || s.drain.Lost?
    ensures var t := ApplyDrain(s, ok, pick); !t.drain.Waiting? && !t.drain.Done? && t.closer == s.closer
  {}

  lemma FlushedByRest(s: State, ok: bool, pick: bool)
    requires Enabled(s, DrainMove(ok, pick)) && !s.drain.Flushing? && !s.drain.FinalFlush?
    requires FlushedFirst(s) && !s.closer.Finished?
    ensures FlushedFirst(ApplyDrain(s, ok, pick))
  {
    hide Settled, ApplyDrain;
    if s.drain.Top? || s.drain.Waiting? || s.drain.Remaining? {
      LookingDoesNotBlock(s, ok, pick);
    } else if s.drain.Sending? || s.drain.Landed? || s.drain.Lost? {
      SendingDoesNotBlock(s, ok, pick);
    } else {
      AnnouncingDoesNotBlock(s, ok, pick);
    }
  }

  lemma FlushedFirstKept(s: State, m: Move)
    requires Enabled(s, m) && Gated(s) && FlushedFirst(s)
    ensures FlushedFirst(Apply(s, m))
  {
    hide ApplyDrain, Settled;
    if m.DrainMove? {
      hide FlushedFirst;
      if s.drain.Flushing? || s.drain.FinalFlush? {
        FlushedByFlush(s, m.ok, m.pick);
      } else {
        FlushedByRest(s, m.ok, m.pick);
      }
    } else {
      assert (s.log + [SinkClosed])[..|s.log|] == s.log;
    }
  }

  lemma CalmEndKept(s: State, m: Move)
    requires Enabled(s, m) && CalmEnd(s) && Gated(s)
    ensures CalmEnd(Apply(s, m))
  {}

  // ----- every interleaving ----------------------------------------------------------------------

  ghost predicate Sound(s: State) {
    && Accounted(s) && Counted(s) && Conserved(s) && InOrder(s) && Announced(s)
    && Gated(s) && ClosedLast(s) && FlushedFirst(s) && CalmEnd(s)
  }

  lemma SoundKept(s: State, m: Move)
    requires Enabled(s, m) && Sound(s)
    ensures Sound(Apply(s, m))
  {
    hide Accounted, Counted, Conserved, InOrder, Announced, Gated, ClosedLast, FlushedFirst, CalmEnd, Apply, Enabled;
    AccountedKept(s, m);
    CountedKept(s, m);
    ConservedKept(s, m);
    InOrderKept(s, m);
    AnnouncedKept(s, m);
    GatedKept(s, m);
    ClosedLastKept(s, m);
    FlushedFirstKept(s, m);
    CalmEndKept(s, m);
  }

  lemma {:induction false} NobodyHolds(ps: seq<Publisher>, n: nat)
    requires forall i :: 0 <= i < |ps| ==> ps[i].Idle?
    ensures HeldBy(ps, n) == 0 && InFlight(ps) == 0
  {
    if ps != [] { NobodyHolds(ps[..|ps| - 1], n); }
  }

  lemma FreshIsSound(publishers: nat, capacity: nat)
    requires capacity > 0
    ensures Sound(Fresh(publishers, capacity))
  {
    var s := Fresh(publishers, capacity);
    forall n: nat ensures Places(s, n) == 0 { NobodyHolds(s.publishers, n); }
    NobodyHolds(s.publishers, 0);
  }

  /** However the goroutines are scheduled, for however long. */
  lemma {:induction false} RunIsSound(publishers: nat, capacity: nat, ms: seq<Move>)
    requires capacity > 0
    ensures Sound(Run(Fresh(publishers, capacity), ms))
  {
    hide Sound, Apply, Enabled, Fresh;
    if ms == [] {
      FreshIsSound(publishers, capacity);
    } else {
      RunIsSound(publishers, capacity, ms[..|ms| - 1]);
      var t := Run(Fresh(publishers, capacity), ms[..|ms| - 1]);
      if Enabled(t, ms[|ms| - 1]) { SoundKept(t, ms[|ms| - 1]); }
    }
  }

  /**
   The accounting, in every interleaving: each number from 1 to the last is in exactly one place, and
   they add up to what was written, announced, failed, dropped, queued, and held by someone.
   */
  lemma EveryNumberIsAccountedFor(publishers: nat, capacity: nat, ms: seq<Move>, n: nat)
    requires capacity > 0
    ensures var s := Run(Fresh(publishers, capacity), ms);
            && (1 <= n <= s.seqNo ==>
                  HeldBy(s.publishers, n) + Count(s.queue, n) + InHand(s.drain, n)
                  + Logged(s.log, n) + Count(s.gone, n) == 1)
            && (!(1 <= n <= s.seqNo) ==> Places(s, n) == 0)
            && s.seqNo == s.emitted + TallyOf(s.log).markers + s.failed + s.dropped
                          + |s.queue| + InFlight(s.publishers) + AtDrain(s.drain)
            && |s.gone| == s.dropped && |s.queue| <= s.capacity
  {
    hide Run, Fresh, HeldBy, Count, InHand, Logged, TallyOf, InFlight, AtDrain, Announced, InOrder, Gated, ClosedLast,
         FlushedFirst, CalmEnd;
    RunIsSound(publishers, capacity, ms);
    var s := Run(Fresh(publishers, capacity), ms);
    assert Places(s, n) == One(1 <= n <= s.seqNo);
  }

  /** The stream keeps the queue's order: what was handed to the sink, what is in hand, what still waits. */
  lemma StreamIsInQueueOrder(publishers: nat, capacity: nat, ms: seq<Move>)
    requires capacity > 0
    ensures var s := Run(Fresh(publishers, capacity), ms);
            s.entered == TallyOf(s.log).order + (Carried(s.drain) + s.queue)
  {
    hide Run, Fresh, TallyOf, Accounted, Counted, Conserved, Announced, Gated, ClosedLast, FlushedFirst, CalmEnd;
    RunIsSound(publishers, capacity, ms);
  }

  /** The markers are a running total of every drop they have announced, none announced twice or ahead of its time. */
  lemma MarkersAddUp(publishers: nat, capacity: nat, ms: seq<Move>, i: nat)
    requires capacity > 0
    ensures var s := Run(Fresh(publishers, capacity), ms);
            && s.reported == TallyOf(s.log).lost + Pending(s.drain) && s.reported <= s.dropped
            && (i < |s.log| && s.log[i].Marked? ==> s.log[i].lost > 0 && s.log[i].total == TallyOf(s.log[..i + 1]).lost)
  {
    hide Run, Fresh, TallyOf, Accounted, Counted, Conserved, InOrder, Gated, ClosedLast, FlushedFirst, CalmEnd;
    RunIsSound(publishers, capacity, ms);
  }

  /** The sink is closed once, after everything else, and is always left flushed by a drain that blocks or ends. */
  lemma SinkIsLeftFlushedAndClosedLast(publishers: nat, capacity: nat, ms: seq<Move>, i: nat)
    requires capacity > 0
    ensures var s := Run(Fresh(publishers, capacity), ms);
            && (i < |s.log| && s.log[i].SinkClosed? ==> i == |s.log| - 1 && s.drain.Done? && !s.open)
            && (s.closer.Finished? ==> s.log != [] && s.log[|s.log| - 1].SinkClosed?)
            && (s.drain.Waiting? || (s.drain.Done? && !s.closer.Finished?) ==>
                  s.log != [] && s.log[|s.log| - 1].Flushed?)
            && (s.closer.Finished? ==> |s.log| >= 2 && s.log[|s.log| - 2].Flushed?)
  {
    hide Run, Fresh, Accounted, Counted, Conserved, InOrder, Announced, Gated, ClosedLast, FlushedFirst, CalmEnd;
    RunIsSound(publishers, capacity, ms);
    SinkFacts(Run(Fresh(publishers, capacity), ms));
  }

  lemma SinkFacts(s: State)
    requires Gated(s) && ClosedLast(s) && FlushedFirst(s)
    ensures forall i :: 0 <= i < |s.log| && s.log[i].SinkClosed? ==> i == |s.log| - 1 && s.drain.Done? && !s.open
    ensures s.closer.Finished? ==> s.log != [] && s.log[|s.log| - 1].SinkClosed?
    ensures s.drain.Waiting? || (s.drain.Done? && !s.closer.Finished?) ==> s.log != [] && s.log[|s.log| - 1].Flushed?
    ensures s.closer.Finished? ==> |s.log| >= 2 && s.log[|s.log| - 2].Flushed?
  {
    hide LastMode, Ending;
  }

  lemma {:induction false} LoggedAt(log: seq<Call>, i: nat, n: nat)
    requires i < |log| && (log[i].Wrote? || log[i].Marked?) && log[i].n == n
    ensures Logged(log, n) >= 1 + Logged(log[..i], n)
  {
    if i < |log| - 1 {
      LoggedAt(log[..|log| - 1], i, n);
      assert log[..|log| - 1][..i] == log[..i];
    }
  }

  /** No number reaches the sink twice, as a record or as a marker, written or failed. */
  lemma NoNumberTwice(s: State, i: nat, k: nat)
    requires Sound(s) && i < k < |s.log|
    requires (s.log[i].Wrote? || s.log[i].Marked?) && (s.log[k].Wrote? || s.log[k].Marked?)
    ensures s.log[i].n != s.log[k].n
  {
    hide Logged, Conserved, Counted, Announced, InOrder, Gated, ClosedLast, FlushedFirst, CalmEnd;
    var n := s.log[i].n;
    assert Places(s, n) <= 1;
    if s.log[k].n == n {
      LoggedAt(s.log, k, n);
      LoggedAt(s.log[..k], i, n);
    }
  }

  /**
   When Close finds no publisher at work, nothing is lost track of: once the drain has ended, every
   queued record was handed to the sink in order, and the markers add up to every drop.
   */
  lemma CalmCloseLosesTrackOfNothing(s: State)
    requires Sound(s) && s.calm && s.drain.Done?
    ensures s.queue == [] && TallyOf(s.log).order == s.entered
    ensures TallyOf(s.log).lost == s.reported == s.dropped
    ensures s.seqNo == s.emitted + TallyOf(s.log).markers + s.failed + s.dropped
  {
    hide TallyOf, RunningTotals, Places;
    NobodyHolds(s.publishers, 0);
  }

  // ----- a publisher caught by Close ---------------------------------------------------------------

  lemma RunSnoc(s: State, ms: seq<Move>, m: Move)
    ensures Run(s, ms + [m]) == if Enabled(Run(s, ms), m) then Apply(Run(s, ms), m) else Run(s, ms)
  {
    hide Apply, Enabled;
    assert (ms + [m])[..|ms|] == ms;
  }

  /** Once the drain has ended, what is queued stays queued. */
  lemma {:induction false} EndedDrainStrands(s: State, ms: seq<Move>)
    requires s.drain.Done?
    ensures var t := Run(s, ms); t.drain.Done? && s.queue <= t.queue && t.emitted == s.emitted
  {
    if ms != [] {
      EndedDrainStrands(s, ms[..|ms| - 1]);
    }
  }

  lemma {:induction false} RunConcat(s: State, a: seq<Move>, b: seq<Move>)
    ensures Run(s, a + b) == Run(Run(s, a), b)
  {
    hide Apply, Enabled;
    if b == [] {
      assert a + b == a;
    } else {
      assert (a + b)[..|a + b| - 1] == a + b[..|b| - 1];
      RunConcat(s, a, b[..|b| - 1]);
    }
  }

  lemma RunCons(s: State, m: Move, ms: seq<Move>)
    requires Enabled(s, m)
    ensures Run(s, [m] + ms) == Run(Apply(s, m), ms)
  {
    hide Apply, Enabled;
    assert [m][..0] == [];
    RunConcat(s, [m], ms);
  }

  /** An idle drain that has been asked to stop takes six moves to do so, flushing twice. */
  lemma IdleDrainEnds(s: State)
    requires s.drain.Top? && s.queue == [] && s.quit && s.dropped == s.reported
    ensures var d := DrainMove(true, true);
            Run(s, [d, d, d, d, d, d]) == s.(drain := Done, log := s.log + [Flushed] + [Flushed])
  {
    hide Run;
    var d := DrainMove(true, true);
    var a := s.(drain := Flushing);
    var b := s.(drain := Waiting, log := s.log + [Flushed]);
    var c, e, f := b.(drain := Remaining), b.(drain := Announcing(None, true)), b.(drain := FinalFlush);
    ThreeMoves(s, a, b, c);
    ThreeMoves(c, e, f, f.(drain := Done, log := f.log + [Flushed]));
    RunConcat(s, [d, d, d], [d, d, d]);
    assert [d, d, d] + [d, d, d] == [d, d, d, d, d, d];
  }

  lemma ThreeMoves(s: State, a: State, b: State, c: State)
    requires var d := DrainMove(true, true);
             && Enabled(s, d) && Enabled(a, d) && Enabled(b, d)
             && Apply(s, d) == a && Apply(a, d) == b && Apply(b, d) == c
    ensures var d := DrainMove(true, true); Run(s, [d, d, d]) == c
  {
    hide Run, Apply, Enabled;
    var d := DrainMove(true, true);
    RunCons(s, d, [d, d]);
    RunCons(a, d, [d]);
    RunCons(b, d, []);
    assert [d] + [d, d] == [d, d, d] && [d] + [d] == [d, d] && [d] + [] == [d];
    RunNothing(c);
  }

  lemma RunNothing(s: State)
    ensures Run(s, []) == s
  {}

  lemma CaughtByClose(capacity: nat) returns (s: State)
    requires capacity > 0
    ensures s == Run(Fresh(1, capacity), [Check(0), Stamp(0), CloseMove, CloseMove])
    ensures s.drain.Top? && s.queue == [] && s.quit && s.dropped == s.reported == 0 && s.emitted == 0
    ensures s.publishers == [Stamped(1)] && s.closer.Quitting? && s.capacity == capacity
  {
    hide Run;
    var f := Fresh(1, capacity);
    var a := f.(publishers := f.publishers[0 := Passed]);
    var b := a.(seqNo := 1, publishers := a.publishers[0 := Stamped(1)]);
    var c := Apply(b, CloseMove);
    s := Apply(c, CloseMove);
    RunCons(f, Check(0), [Stamp(0), CloseMove, CloseMove]);
    RunCons(a, Stamp(0), [CloseMove, CloseMove]);
    RunCons(b, CloseMove, [CloseMove]);
    RunCons(c, CloseMove, []);
    assert [Check(0)] + [Stamp(0), CloseMove, CloseMove] == [Check(0), Stamp(0), CloseMove, CloseMove];
    assert [Stamp(0)] + [CloseMove, CloseMove] == [Stamp(0), CloseMove, CloseMove];
    assert [CloseMove] + [CloseMove] == [CloseMove, CloseMove] && [CloseMove] + [] == [CloseMove];
    RunNothing(s);
  }

  /** A publisher past the open check when Close begins can queue its record after the drain has ended. */
  lemma CaughtRecordIsStranded(capacity: nat) returns (ms: seq<Move>)
    requires capacity > 0
    ensures var s := Run(Fresh(1, capacity), ms);
            s.closer.Finished? && s.drain.Done? && s.queue == [1] && s.dropped == 0 && s.emitted == 0
  {
    hide Run, ApplyDrain;
    var d := DrainMove(true, true);
    var a, b, c := [Check(0), Stamp(0), CloseMove, CloseMove], [d, d, d, d, d, d], [CloseMove, Offer(0)];
    var s := CaughtByClose(capacity);
    IdleDrainEnds(s);
    var t := Run(s, b);
    RunCons(t, CloseMove, [Offer(0)]);
    RunCons(Apply(t, CloseMove), Offer(0), []);
    assert [CloseMove] + [Offer(0)] == c && [Offer(0)] + [] == [Offer(0)];
    RunNothing(Apply(Apply(t, CloseMove), Offer(0)));
    RunConcat(s, b, c);
    RunConcat(Fresh(1, capacity), a, b + c);
    ms := a + (b + c);
  }

  // ----- closing ends ------------------------------------------------------------------------------

  function PublisherWork(p: Publisher): nat {
    match p
    case Idle => 0
    case Passed => 12
    case Stamped(_) => 11
    case Refused(_) => 1
  }

  function PublishersWork(ps: seq<Publisher>): nat {
    if ps == [] then 0 else PublishersWork(ps[..|ps| - 1]) + PublisherWork(ps[|ps| - 1])
  }

  lemma {:induction false} WorkUpdate(ps: seq<Publisher>, i: nat, p: Publisher)
    requires i < |ps|
    ensures PublishersWork(ps[i := p]) + PublisherWork(ps[i]) == PublishersWork(ps) + PublisherWork(p)
  {
    var init := ps[..|ps| - 1];
    if i == |ps| - 1 {
      assert ps[i := p][..|ps| - 1] == init;
    } else {
      assert ps[i := p][..|ps| - 1] == init[i := p];
      WorkUpdate(init, i, p);
    }
  }

  /** An upper bound on the drain's moves before it takes another record or ends. */
  function DrainWork(d: Drain): nat {
    match d
    case Announcing(job, _) => if job.Some? then 15 else 5
    case Marking(_, _, job, _) => if job.Some? then 14 else 4
    case MarkerOut(_, _, _, job, _) => if job.Some? then 13 else 3
    case MarkerFailed(job, _) => if job.Some? then 12 else 2
    case Sending(_, _) => 11
    case Landed(_) => 10
    case Lost(_) => 10
    case Top => 9
    case Flushing => 8
    case Waiting => 7
    case Remaining => 6
    case FinalFlush => 1
    case Done => 0
  }

  function CloserWork(c: Closer): nat {
    match c
    case NotClosing => 3
    case Shut => 2
    case Quitting => 1
    case Finished => 0
  }

  function Work(s: State): nat {
    PublishersWork(s.publishers) + 10 * |s.queue| + DrainWork(s.drain) + CloserWork(s.closer)
  }

  /** A move that changes something once publishing has been closed. */
  predicate Productive(s: State, m: Move) { Enabled(s, m) && !m.Check? }

  ghost predicate Falls(s: State, t: State) {
    10 * |t.queue| + DrainWork(t.drain) < 10 * |s.queue| + DrainWork(s.drain)
  }

  lemma LookingFalls(s: State, ok: bool, pick: bool)
    requires Enabled(s, DrainMove(ok, pick)) && (s.drain.Top? || s.drain.Waiting? || s.drain.Remaining?)
    ensures Falls(s, ApplyDrain(s, ok, pick))
  {}

  lemma AnnouncingFalls(s: State, ok: bool, pick: bool)
    requires s.drain.Announcing? || s.drain.Marking? || s.drain.MarkerOut? || s.drain.MarkerFailed?
    ensures Falls(s, ApplyDrain(s, ok, pick))
  {
    var job := Job(s.drain);
    assert DrainWork(AfterMarker(job, s.drain.last)) == if job.Some? then 11 else 1;
  }

  lemma WritingFalls(s: State, ok: bool, pick: bool)
    requires s.drain.Sending? || s.drain.Landed? || s.drain.Lost? || s.drain.Flushing? || s.drain.FinalFlush?
    ensures Falls(s, ApplyDrain(s, ok, pick))
  {}

  lemma DrainWorkFalls(s: State, ok: bool, pick: bool)
    requires Enabled(s, DrainMove(ok, pick))
    ensures Falls(s, ApplyDrain(s, ok, pick))
  {
    hide Falls, ApplyDrain;
    if s.drain.Top? || s.drain.Waiting? || s.drain.Remaining? {
      LookingFalls(s, ok, pick);
    } else if s.drain.Announcing? || s.drain.Marking? || s.drain.MarkerOut? || s.drain.MarkerFailed? {
      AnnouncingFalls(s, ok, pick);
    } else {
      WritingFalls(s, ok, pick);
    }
  }

  lemma WorkFalls(s: State, m: Move)
    requires Productive(s, m)
    ensures Work(Apply(s, m)) < Work(s)
  {
    hide PublishersWork, ApplyDrain, DrainWork;
    if m.DrainMove? {
      DrainWorkFalls(s, m.ok, m.pick);
      DrainFrame(s, m.ok, m.pick);
    } else if !m.CloseMove? {
      WorkUpdate(s.publishers, m.i, Apply(s, m).publishers[m.i]);
      var t := Apply(s, m);
      assert t.publishers == s.publishers[m.i := t.publishers[m.i]];
    }
  }

  lemma DrainFrame(s: State, ok: bool, pick: bool)
    requires Enabled(s, DrainMove(ok, pick))
    ensures var t := ApplyDrain(s, ok, pick); t.publishers == s.publishers && t.closer == s.closer
  {}

  /** Nothing is left to do only when the sink has been closed and every publisher has returned. */
  lemma OnlyFinishedIsStill(s: State)
    requires Gated(s) && !s.open && forall m :: !Productive(s, m)
    ensures s.closer.Finished? && s.drain.Done? && forall i :: 0 <= i < |s.publishers| ==> s.publishers[i].Idle?
  {
    assert !Productive(s, CloseMove) && !Productive(s, DrainMove(true, true));
    forall i | 0 <= i < |s.publishers| ensures s.publishers[i].Idle? {
      assert !Productive(s, Stamp(i)) && !Productive(s, Offer(i)) && !Productive(s, CountDrop(i));
    }
  }

  ghost predicate AllProductive(s: State, ms: seq<Move>) {
    forall k :: 0 <= k < |ms| ==> Productive(Run(s, ms[..k]), ms[k])
  }

  /** Closing always comes to an end: no schedule keeps finding work for longer than what is left to do. */
  lemma {:induction false} ClosingEnds(s: State, ms: seq<Move>)
    requires AllProductive(s, ms)
    ensures |ms| + Work(Run(s, ms)) <= Work(s)
  {
    hide Apply, Productive, Work;
    if ms != [] {
      var p := ms[..|ms| - 1];
      assert forall k :: 0 <= k <= |p| ==> p[..k] == ms[..k];
      ClosingEnds(s, p);
      assert Productive(Run(s, ms[..|p|]), ms[|p|]);
      WorkFalls(Run(s, p), ms[|p|]);
      ProductiveIsEnabled(Run(s, p), ms[|p|]);
    }
  }

  lemma ProductiveIsEnabled(s: State, m: Move)
    requires Productive(s, m)
    ensures Enabled(s, m)
  {}

  // ----- exactly when Close loses track ------------------------------------------------------------

  /** Every queued record was handed on, and every drop has been announced. */
  ghost predicate NothingAdrift(s: State) { s.queue == [] && TallyOf(s.log).lost == s.dropped }

  lemma {:induction false} StaysSound(s: State, ms: seq<Move>)
    requires Sound(s) && !s.closer.NotClosing?
    ensures var t := Run(s, ms); Sound(t) && !t.closer.NotClosing? && t.calm == s.calm
  {
    hide Sound, Apply, Enabled;
    if ms != [] {
      StaysSound(s, ms[..|ms| - 1]);
      var t := Run(s, ms[..|ms| - 1]);
      if Enabled(t, ms[|ms| - 1]) {
        SoundKept(t, ms[|ms| - 1]);
        CalmIsSettled(t, ms[|ms| - 1]);
      }
    }
  }

  lemma CalmIsSettled(s: State, m: Move)
    requires Enabled(s, m) && !s.closer.NotClosing?
    ensures !Apply(s, m).closer.NotClosing? && Apply(s, m).calm == s.calm
  {}

  lemma DrainMovesOnly(s: State, ok: bool, pick: bool)
    requires Enabled(s, DrainMove(ok, pick))
    ensures var t := ApplyDrain(s, ok, pick);
            t.publishers == s.publishers && t.capacity == s.capacity && t.quit == s.quit
  {}

  /** Left to itself a drain that has been asked to stop does. */
  lemma DrainsOut(s: State) returns (ms: seq<Move>)
    requires s.quit
    ensures var t := Run(s, ms); t.drain.Done? && t.publishers == s.publishers && t.capacity == s.capacity
    decreases 10 * |s.queue| + DrainWork(s.drain)
  {
    hide Run, ApplyDrain, DrainWork;
    if s.drain.Done? {
      ms := [];
      RunNothing(s);
    } else {
      var d := DrainMove(true, true);
      DrainWorkFalls(s, true, true);
      DrainMovesOnly(s, true, true);
      var rest := DrainsOut(Apply(s, d));
      RunCons(s, d, rest);
      ms := [d] + rest;
    }
  }

  /** What a publisher still at work does once the drain has ended: a record queued, or a drop counted. */
  lemma LateWork(s: State, i: nat) returns (ms: seq<Move>)
    requires s.drain.Done? && Sound(s) && s.capacity > 0 && i < |s.publishers| && !s.publishers[i].Idle?
    ensures !NothingAdrift(Run(s, ms)) && Run(s, ms).drain.Done?
  {
    hide Run, TallyOf, RunningTotals, Accounted, Counted, Conserved, InOrder, Gated, ClosedLast, FlushedFirst, CalmEnd;
    match s.publishers[i] {
      case Passed =>
        RunCons(s, Stamp(i), [Offer(i)]);
        RunCons(Apply(s, Stamp(i)), Offer(i), []);
        ms := [Stamp(i)] + ([Offer(i)] + []);
        RunNothing(Apply(Apply(s, Stamp(i)), Offer(i)));
        assert [Offer(i)] + [] == [Offer(i)];
      case Stamped(_) =>
        RunCons(s, Offer(i), []);
        ms := [Offer(i)] + [];
        RunNothing(Apply(s, Offer(i)));
      case Refused(_) =>
        RunCons(s, CountDrop(i), []);
        ms := [CountDrop(i)] + [];
        RunNothing(Apply(s, CountDrop(i)));
    }
  }

  lemma CaughtIsAdrift(s: State, i: nat) returns (ms: seq<Move>)
    requires Sound(s) && s.closer.NotClosing? && s.capacity > 0 && i < |s.publishers| && !s.publishers[i].Idle?
    ensures var t := Run(Apply(s, CloseMove), ms); t.drain.Done? && !NothingAdrift(t)
  {
    hide Run, Sound, NothingAdrift;
    var c := Apply(s, CloseMove);
    var q := Apply(c, CloseMove);
    SoundKept(s, CloseMove);
    var drained := DrainsOut(q);
    RunCons(c, CloseMove, drained);
    StaysSound(c, [CloseMove] + drained);
    var late := LateWork(Run(q, drained), i);
    RunConcat(c, [CloseMove] + drained, late);
    ms := [CloseMove] + drained + late;
  }

  /**
   From the moment Close begins: whatever the schedule, an ended drain leaves nothing queued and no
   drop unannounced, exactly when Close found every publisher between its calls.
   */
  lemma CloseLosesTrackExactly(s: State)
    requires Sound(s) && s.closer.NotClosing? && s.capacity > 0
    ensures (forall ms :: Run(Apply(s, CloseMove), ms).drain.Done? ==> NothingAdrift(Run(Apply(s, CloseMove), ms)))
            <==> (forall i :: 0 <= i < |s.publishers| ==> s.publishers[i].Idle?)
  {
    hide Run, Sound, NothingAdrift;
    var c := Apply(s, CloseMove);
    if i :| 0 <= i < |s.publishers| && !s.publishers[i].Idle? {
      var ms := CaughtIsAdrift(s, i);
    } else {
      SoundKept(s, CloseMove);
      forall ms | Run(c, ms).drain.Done? ensures NothingAdrift(Run(c, ms)) {
        StaysSound(c, ms);
        CalmIsNotAdrift(Run(c, ms));
      }
    }
  }

  lemma CalmIsNotAdrift(s: State)
    requires Sound(s) && s.calm && s.drain.Done?
    ensures NothingAdrift(s)
  {
    hide Sound;
    CalmCloseLosesTrackOfNothing(s);
  }
}
