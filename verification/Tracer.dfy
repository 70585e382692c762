/**
 The buffered tracer as the atomic steps its goroutines take: any number of publishers, the one
 drain and the closer, interleaved in any order over a bounded queue.
 */
module Tracer {
  import opened Options

  /** A publisher between its calls, past the open check, holding a number, or refused by a full queue. */
  datatype Publisher = Idle | Passed | Stamped(n: nat) | Refused(n: nat)

  /** What the drain does after announcing drops: write the record it took, or end. */
  datatype Drain =
    | Top | Flushing | Waiting | Remaining
    | Announcing(job: Option<nat>, last: bool)
    | Marking(lost: int, total: nat, job: Option<nat>, last: bool)
    | MarkerOut(n: nat, lost: int, total: nat, job: Option<nat>, last: bool)
    | MarkerFailed(job: Option<nat>, last: bool)
    | Sending(n: nat, last: bool)
    | Landed(last: bool)
    | Lost(last: bool)
    | FinalFlush | Done

  datatype Closer = NotClosing | Shut | Quitting | Finished

  /** The sink's side of the story, call by call. */
  datatype Call =
    | Wrote(n: nat, ok: bool)
    | Marked(n: nat, lost: int, total: nat, ok: bool)
    | Flushed
    | SinkClosed

  /** gone, entered and calm only remember: who was dropped, who was queued, whether Close met no publisher. */
  datatype State = State(
    capacity: nat, open: bool, quit: bool, publishers: seq<Publisher>, queue: seq<nat>,
    seqNo: nat, emitted: nat, dropped: nat, failed: nat, reported: nat,
    drain: Drain, closer: Closer, log: seq<Call>, gone: seq<nat>, entered: seq<nat>, calm: bool)

  datatype Move =
    | Check(i: nat) | Stamp(i: nat) | Offer(i: nat) | CountDrop(i: nat)
    | DrainMove(ok: bool, pick: bool)
    | CloseMove

  function Fresh(publishers: nat, capacity: nat): State
    requires capacity > 0
  {
    State(capacity, true, false, seq(publishers, _ => Idle), [], 0, 0, 0, 0, 0, Top, NotClosing, [], [], [], false)
  }

  predicate Enabled(s: State, m: Move) {
    match m
    case Check(i) => i < |s.publishers| && s.publishers[i].Idle?
    case Stamp(i) => i < |s.publishers| && s.publishers[i].Passed?
    case Offer(i) => i < |s.publishers| && s.publishers[i].Stamped?
    case CountDrop(i) => i < |s.publishers| && s.publishers[i].Refused?
    case DrainMove(_, _) => !s.drain.Done? && (s.drain.Waiting? ==> s.queue != [] || s.quit)
    case CloseMove => !s.closer.Finished? && (s.closer.Quitting? ==> s.drain.Done?)
  }

  function Apply(s: State, m: Move): State
    requires Enabled(s, m)
  {
    match m
    case Check(i) => if s.open then s.(publishers := s.publishers[i := Passed]) else s
    case Stamp(i) => s.(seqNo := s.seqNo + 1, publishers := s.publishers[i := Stamped(s.seqNo + 1)])
    case Offer(i) =>
      var n := s.publishers[i].n;
      if |s.queue| < s.capacity then
        s.(queue := s.queue + [n], entered := s.entered + [n], publishers := s.publishers[i := Idle])
      else s.(publishers := s.publishers[i := Refused(n)])
    case CountDrop(i) =>
      s.(dropped := s.dropped + 1, gone := s.gone + [s.publishers[i].n], publishers := s.publishers[i := Idle])
    case DrainMove(ok, pick) => ApplyDrain(s, ok, pick)
    case CloseMove =>
      match s.closer
      case NotClosing =>
        s.(closer := Shut, open := false, calm := forall i :: 0 <= i < |s.publishers| ==> s.publishers[i].Idle?)
      case Shut => s.(closer := Quitting, quit := true)
      case Quitting => s.(closer := Finished, log := s.log + [SinkClosed])
  }

  /** Receives the oldest record and turns to announcing drops ahead of it. */
  function Take(s: State, last: bool): State
    requires s.queue != []
  {
    s.(queue := s.queue[1..], drain := Announcing(Some(s.queue[0]), last))
  }

  function Written(s: State, call: Call, next: Drain): State { s.(log := s.log + [call], drain := next) }

  function AfterMarker(job: Option<nat>, last: bool): Drain {
    match job case Some(n) => Sending(n, last) case None => FinalFlush
  }

  function AfterRecord(last: bool): Drain { if last then Remaining else Top }

  function ApplyDrain(s: State, ok: bool, pick: bool): State
    requires Enabled(s, DrainMove(ok, pick))
  {
    match s.drain
    case Top => if s.queue != [] then Take(s, false) else s.(drain := Flushing)
    case Flushing => Written(s, Flushed, Waiting)
    case Waiting => if s.queue != [] && (!s.quit || pick) then Take(s, false) else s.(drain := Remaining)
    case Remaining => if s.queue != [] then Take(s, true) else s.(drain := Announcing(None, true))
    case Announcing(job, last) =>
      if s.dropped == s.reported then s.(drain := AfterMarker(job, last))
      else s.(reported := s.dropped, drain := Marking(s.dropped - s.reported, s.dropped, job, last))
    case Marking(lost, total, job, last) =>
      s.(seqNo := s.seqNo + 1, drain := MarkerOut(s.seqNo + 1, lost, total, job, last))
    case MarkerOut(n, lost, total, job, last) =>
      Written(s, Marked(n, lost, total, ok), if ok then AfterMarker(job, last) else MarkerFailed(job, last))
    case MarkerFailed(job, last) => s.(failed := s.failed + 1, drain := AfterMarker(job, last))
    case Sending(n, last) => Written(s, Wrote(n, ok), if ok then Landed(last) else Lost(last))
    case Landed(last) => s.(emitted := s.emitted + 1, drain := AfterRecord(last))
    case Lost(last) => s.(failed := s.failed + 1, drain := AfterRecord(last))
    case FinalFlush => Written(s, Flushed, Done)
  }

  // ----- where every number is -------------------------------------------------------------------

  function One(b: bool): nat { if b then 1 else 0 }

  /** How many publishers hold the number n. */
  function HeldBy(ps: seq<Publisher>, n: nat): nat {
    if ps == [] then 0
    else
      var p := ps[|ps| - 1];
      HeldBy(ps[..|ps| - 1], n) + Holds(p, n)
  }

  function Holds(p: Publisher, n: nat): nat { One((p.Stamped? || p.Refused?) && p.n == n) }

  function Count(q: seq<nat>, n: nat): nat {
    if q == [] then 0 else Count(q[..|q| - 1], n) + One(q[|q| - 1] == n)
  }

  function Job(d: Drain): Option<nat> {
    match d
    case Announcing(job, _) => job
    case Marking(_, _, job, _) => job
    case MarkerOut(_, _, _, job, _) => job
    case MarkerFailed(job, _) => job
    case Sending(n, _) => Some(n)
    case _ => None
  }

  /** The drain holds the record it took and the marker it is about to write. */
  function InHand(d: Drain, n: nat): nat {
    One(Job(d) == Some(n)) + One(d.MarkerOut? && d.n == n)
  }

  /** How many of the sink's writes, failed ones included, carried the number. */
  function Logged(log: seq<Call>, n: nat): nat {
    if log == [] then 0
    else
      var c := log[|log| - 1];
      Logged(log[..|log| - 1], n) + One((c.Wrote? || c.Marked?) && c.n == n)
  }

  /** In how many places the number is. */
  function Places(s: State, n: nat): nat {
    HeldBy(s.publishers, n) + Count(s.queue, n) + InHand(s.drain, n) + Logged(s.log, n) + Count(s.gone, n)
  }

  /** Every number handed out is in exactly one place, and no other number is anywhere. */
  ghost predicate Accounted(s: State) {
    forall n: nat :: Places(s, n) == One(1 <= n <= s.seqNo)
  }

  lemma {:induction false} HeldUpdate(ps: seq<Publisher>, i: nat, p: Publisher, n: nat)
    requires i < |ps|
    ensures HeldBy(ps[i := p], n) + Holds(ps[i], n) == HeldBy(ps, n) + Holds(p, n)
  {
    var init := ps[..|ps| - 1];
    if i == |ps| - 1 {
      assert ps[i := p][..|ps| - 1] == init;
    } else {
      assert ps[i := p][..|ps| - 1] == init[i := p];
      HeldUpdate(init, i, p, n);
    }
  }

  lemma CountAppend(q: seq<nat>, x: nat, n: nat)
    ensures Count(q + [x], n) == Count(q, n) + One(x == n)
  {
    assert (q + [x])[..|q|] == q;
  }

  lemma {:induction false} CountHead(q: seq<nat>, n: nat)
    requires q != []
    ensures Count(q, n) == Count(q[1..], n) + One(q[0] == n)
  {
    if |q| > 1 {
      CountHead(q[..|q| - 1], n);
      assert q[..|q| - 1][1..] == q[1..][..|q| - 2];
    }
  }

  lemma LoggedAppend(log: seq<Call>, c: Call, n: nat)
    ensures Logged(log + [c], n) == Logged(log, n) + One((c.Wrote? || c.Marked?) && c.n == n)
  {
    assert (log + [c])[..|log|] == log;
  }

  lemma PublisherPlaces(s: State, m: Move, n: nat)
    requires Enabled(s, m) && (m.Check? || m.Stamp? || m.Offer? || m.CountDrop?)
    ensures var t := Apply(s, m);
            Places(t, n) == Places(s, n) + One(t.seqNo == n && s.seqNo < n)
  {
    hide Logged, Count, HeldBy, InHand, ApplyDrain;
    var p := s.publishers[m.i];
    assert s.publishers[m.i := p] == s.publishers;
    match m {
      case Check(i) => HeldUpdate(s.publishers, i, Passed, n);
      case Stamp(i) => HeldUpdate(s.publishers, i, Stamped(s.seqNo + 1), n);
      case Offer(i) =>
        HeldUpdate(s.publishers, i, Idle, n);
        HeldUpdate(s.publishers, i, Refused(p.n), n);
        CountAppend(s.queue, p.n, n);
      case CountDrop(i) =>
        HeldUpdate(s.publishers, i, Idle, n);
        CountAppend(s.gone, p.n, n);
    }
  }

  lemma TakePlaces(s: State, last: bool, n: nat)
    requires s.queue != [] && forall k: nat :: InHand(s.drain, k) == 0
    ensures Places(Take(s, last), n) == Places(s, n) && Take(s, last).seqNo == s.seqNo
  {
    hide HeldBy, Count, Logged;
    CountHead(s.queue, n);
  }

  lemma WritePlaces(s: State, c: Call, next: Drain, n: nat)
    ensures Places(Written(s, c, next), n) + InHand(s.drain, n)
            == Places(s, n) + InHand(next, n) + One((c.Wrote? || c.Marked?) && c.n == n)
  {
    hide HeldBy, Count, Logged;
    LoggedAppend(s.log, c, n);
  }

  /** Between writes the drain takes a record, or a number, or moves on. */
  lemma QuietDrainPlaces(s: State, ok: bool, pick: bool, n: nat)
    requires Enabled(s, DrainMove(ok, pick))
    requires s.drain.Top? || s.drain.Waiting? || s.drain.Remaining? || s.drain.Announcing? || s.drain.Marking?
             || s.drain.MarkerFailed? || s.drain.Landed? || s.drain.Lost?
    ensures var t := ApplyDrain(s, ok, pick);
            Places(t, n) == Places(s, n) + One(t.seqNo == n && s.seqNo < n)
  {
    hide HeldBy, Count, Logged, Take;
    if s.queue != [] && (s.drain.Top? || s.drain.Waiting? || s.drain.Remaining?) {
      TakePlaces(s, false, n);
      TakePlaces(s, true, n);
    }
  }

  lemma WritingDrainPlaces(s: State, ok: bool, pick: bool, n: nat)
    requires s.drain.Flushing? || s.drain.FinalFlush? || s.drain.MarkerOut? || s.drain.Sending?
    ensures var t := ApplyDrain(s, ok, pick);
            Places(t, n) == Places(s, n) && t.seqNo == s.seqNo
  {
    hide HeldBy, Count, Logged, Written, Places;
    var next := ApplyDrain(s, ok, pick).drain;
    WritePlaces(s, Flushed, next, n);
    if s.drain.MarkerOut? { WritePlaces(s, Marked(s.drain.n, s.drain.lost, s.drain.total, ok), next, n); }
    if s.drain.Sending? { WritePlaces(s, Wrote(s.drain.n, ok), next, n); }
    WrittenKeeps(s);
  }

  lemma WrittenKeeps(s: State)
    ensures forall c: Call, d: Drain :: Written(s, c, d).drain == d && Written(s, c, d).seqNo == s.seqNo
  {}

  lemma ClosePlaces(s: State, n: nat)
    requires Enabled(s, CloseMove)
    ensures Places(Apply(s, CloseMove), n) == Places(s, n) && Apply(s, CloseMove).seqNo == s.seqNo
  {
    hide Count, HeldBy, Logged;
    LoggedAppend(s.log, SinkClosed, n);
  }

  lemma MovePlaces(s: State, m: Move, n: nat)
    requires Enabled(s, m)
    ensures var t := Apply(s, m);
            Places(t, n) == Places(s, n) + One(t.seqNo == n && s.seqNo < n)
  {
    hide Places, ApplyDrain, Count, HeldBy, Logged, InHand;
    if m.DrainMove? {
      if s.drain.Flushing? || s.drain.FinalFlush? || s.drain.MarkerOut? || s.drain.Sending? {
        WritingDrainPlaces(s, m.ok, m.pick, n);
      } else {
        QuietDrainPlaces(s, m.ok, m.pick, n);
      }
    } else if m.CloseMove? {
      ClosePlaces(s, n);
    } else {
      PublisherPlaces(s, m, n);
    }
  }

  lemma AccountedKept(s: State, m: Move)
    requires Enabled(s, m) && Accounted(s)
    ensures Accounted(Apply(s, m))
  {
    hide Places;
    var t := Apply(s, m);
    forall n: nat ensures Places(t, n) == One(1 <= n <= t.seqNo) {
      MovePlaces(s, m, n);
    }
  }

  // ----- runs ------------------------------------------------------------------------------------

  /** Any schedule: a move that cannot be taken where it is scheduled changes nothing. */
  function Run(s: State, ms: seq<Move>): State {
    if ms == [] then s
    else
      var t := Run(s, ms[..|ms| - 1]);
      if Enabled(t, ms[|ms| - 1]) then Apply(t, ms[|ms| - 1]) else t
  }
}
