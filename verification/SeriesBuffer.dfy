/**
 A series while a fetcher is filling it: an all-unknown grid into which the rows that came back
 are written bucket by bucket, and where absence becomes zero only by a deliberate second step.
 */
module SeriesBuffers {
  import opened Options
  import opened Queries
  import opened SeriesGrid

  /** One row of a bucketed query: a bucket start and what was computed for it. */
  datatype Row = Row(value: Option<real>, denominator: Option<real>)

  /** What a store holds for one selection: a row per bucket that had any, keyed by bucket start. */
  type Table = map<int, Row>

  datatype Reading = Reading(value: Option<real>, denominator: Option<real>)

  /** How the bucket starting at t must read, whichever span it is fetched as part of. */
  function Observed(table: Table, q: Query, t: int): Reading {
    if q.aggregate == Ratio then
      if t in table && table[t].value.Some? && table[t].denominator.Some?
      then Reading(table[t].value, table[t].denominator)
      else Reading(None, None)
    else if t in table && table[t].value.Some? then Reading(table[t].value, None)
    else if q.aggregate.FillsZero(q.source) then Reading(Some(0.0), None)
    else Reading(None, None)
  }

  class SeriesBuffer {
    const step: int
    const startMS: int
    const values: array<Option<real>>
    var denominator: array?<Option<real>>
    var filled: bool

    ghost predicate Valid()
      reads this
    {
      && WholeMillis(step)
      && (denominator != null ==> denominator != values && denominator.Length == values.Length)
    }

    function Snapshot(): Series
      reads this, values, denominator
    {
      Series(step, startMS, values[..], if denominator == null then [] else denominator[..], filled)
    }

    function ReadingAt(i: int): Reading
      reads this, values, denominator
    {
      Reading(At(Snapshot().values, i), At(Snapshot().denominator, i))
    }

    constructor (from: int, to: int, step: int)
      requires WholeMillis(step)
      ensures Valid() && fresh(values) && denominator == null && !filled
      ensures this.step == step && startMS == UnixMilli(from)
      ensures values.Length == BucketCount(from, to, step)
      ensures forall i :: ReadingAt(i) == Reading(None, None)
    {
      this.step, startMS := step, UnixMilli(from);
      assert from < to ==> (to - from) / step >= 0;
      values := new Option<real>[BucketCount(from, to, step)](_ => None);
      denominator, filled := null, false;
    }

    method Set(i: int, v: real)
      requires Valid()
      modifies values
      ensures Valid()
      ensures forall k :: ReadingAt(k)
                          == if k == i && 0 <= i < values.Length then Reading(Some(v), old(ReadingAt(k)).denominator)
                             else old(ReadingAt(k))
    {
      if i < 0 || i >= values.Length {
        return;
      }
      values[i] := Some(v);
    }

    /** Writes both halves of a ratio, allocating the second column on first use. */
    method SetRatio(i: int, num: real, den: real)
      requires Valid()
      modifies this`denominator, values, denominator
      ensures Valid() && (denominator == old(denominator) || fresh(denominator))
      ensures forall k :: ReadingAt(k)
                          == if k == i && 0 <= i < values.Length then Reading(Some(num), Some(den))
                             else old(ReadingAt(k))
    {
      if i < 0 || i >= values.Length {
        return;
      }
      if denominator == null {
        denominator := new Option<real>[values.Length](_ => None);
      }
      values[i] := Some(num);
      denominator[i] := Some(den);
    }

    method FillZeros()
      requires Valid()
      modifies this`filled, values
      ensures Valid() && filled
      ensures forall k :: ReadingAt(k)
                          == if 0 <= k < values.Length && old(ReadingAt(k)).value == None
                             then Reading(Some(0.0), old(ReadingAt(k)).denominator)
                             else old(ReadingAt(k))
    {
      for i := 0 to values.Length
        invariant forall k :: 0 <= k < i ==> values[k] == if old(values[k]) == None then Some(0.0) else old(values[k])
        invariant forall k :: i <= k < values.Length ==> values[k] == old(values[k])
      {
        if values[i] == None {
          values[i] := Some(0.0);
        }
      }
      filled := true;
    }

    /** Writes one row where its bucket falls, or nowhere when that is outside the grid. */
    method ScanBucket(bucket: int, row: Row, ratio: bool)
      requires Valid()
      modifies this`denominator, values, denominator
      ensures Valid() && (denominator == old(denominator) || fresh(denominator))
      ensures forall k :: ReadingAt(k)
                          == if Snapshot().IndexOf(bucket) == Some(k) && Written(row, ratio)
                             then Reading(row.value, if ratio then row.denominator else old(ReadingAt(k)).denominator)
                             else old(ReadingAt(k))
    {
      assert step / NANOS_PER_MILLI > 0;
      var index := Snapshot().IndexOf(bucket);
      if index.None? {
        return;
      }
      if ratio {
        if row.value == None || row.denominator == None {
          return;
        }
        SetRatio(index.value, row.value.value, row.denominator.value);
      } else if row.value.Some? {
        Set(index.value, row.value.value);
      }
    }
  }

  /** Whether a scanned row leaves a mark: a ratio needs both of its halves. */
  predicate Written(row: Row, ratio: bool) {
    row.value.Some? && (ratio ==> row.denominator.Some?)
  }

  /** rows is the answer to a bucketed query over [from, to): each bucket of the table in the span, once. */
  ghost predicate Answers(rows: seq<(int, Row)>, table: Table, from: int, to: int) {
    && (forall i :: 0 <= i < |rows| ==> from <= rows[i].0 < to && rows[i].0 in table && table[rows[i].0] == rows[i].1)
    && (forall i, j :: 0 <= i < j < |rows| ==> rows[i].0 != rows[j].0)
    && (forall t :: t in table && from <= t < to ==> exists i :: 0 <= i < |rows| && rows[i].0 == t)
  }

  /** Every row of the table sits on the grid: bucketed by date_bin against the epoch. */
  ghost predicate OnGrid(table: Table, step: int)
    requires step > 0
  {
    forall t :: t in table ==> t % step == 0
  }

  /** The series is the stretch [from, from + n * step) of one reading per bucket. */
  ghost predicate CutOf(s: Series, reading: int -> Reading, from: int, n: nat, step: int) {
    && s.step == step && s.startMS == UnixMilli(from) && |s.values| == n && |s.denominator| <= n
    && forall i :: 0 <= i < n ==> Reading(At(s.values, i), At(s.denominator, i)) == reading(from + i * step)
  }

  /** A boundary k steps into a grid falls in its k-th bucket and nowhere else. */
  lemma IndexOfBoundary(s: Series, from: int, k: int)
    requires WholeMillis(s.step) && s.startMS == UnixMilli(from) && 0 <= k < |s.values|
    ensures s.IndexOf(from + k * s.step) == Some(k)
  {
    MilliShift(from, k, s.step);
    MultipleDivides(k, s.StepMS());
    MultipleIsLarge(s.StepMS(), k);
  }

  lemma GridPosition(t: int, from: int, n: nat, step: int) returns (k: nat)
    requires step > 0 && t % step == 0 && from % step == 0 && from <= t < from + n * step
    ensures t == from + k * step && k < n
  {
    var p, q := t / step, from / step;
    assert t == step * p && from == step * q;
    assert t - from == step * (p - q);
    MultipleIsLarge(step, p - q);
    MultipleIsLarge(step, p - q - n);
    assert step * (p - q - n) == t - from - n * step;
    k := p - q;
    assert k * step == step * k;
  }

  /** What the first j scanned rows leave in the bucket that starts at t. */
  ghost function ScannedAt(rows: seq<(int, Row)>, j: nat, q: Query, t: int): Reading
    requires j <= |rows|
  {
    if i :| 0 <= i < j && rows[i].0 == t && Written(rows[i].1, q.aggregate == Ratio)
    then Reading(rows[i].1.value, if q.aggregate == Ratio then rows[i].1.denominator else None)
    else Reading(None, None)
  }

  lemma ScannedIsObserved(rows: seq<(int, Row)>, table: Table, q: Query, n: nat, i: nat)
    requires q.step > 0 && q.to == q.from + n * q.step && i < n
    requires Answers(rows, table, q.from, q.to)
    ensures var t := q.from + i * q.step;
            var r := ScannedAt(rows, |rows|, q, t);
            Observed(table, q, t)
            == if r.value == None && q.aggregate.FillsZero(q.source) then Reading(Some(0.0), r.denominator) else r
  {
    var t := q.from + i * q.step;
    MultipleIsLarge(q.step, n - i);
    assert q.step * (n - i) == q.to - t;
    assert i * q.step >= 0;
    if t in table && Written(table[t], q.aggregate == Ratio) {
      var j :| 0 <= j < |rows| && rows[j].0 == t;
      assert rows[j].1 == table[t];
    }
  }

  /** Bucket k is the only one of the first n that starts k steps in. */
  lemma OnlyBucket(from: int, step: int, n: nat, k: nat)
    requires step > 0
    ensures forall i :: 0 <= i < n ==> (i == k <==> from + i * step == from + k * step)
  {
    forall i | 0 <= i < n ensures i == k <==> from + i * step == from + k * step {
      MultipleIsLarge(step, i - k);
      assert step * (i - k) == i * step - k * step;
    }
  }

  /** One more row changes the bucket that starts where it does, if it leaves a mark, and no other. */
  lemma ScannedStep(rows: seq<(int, Row)>, table: Table, q: Query, j: nat, t: int)
    requires Answers(rows, table, q.from, q.to) && j < |rows|
    ensures q.aggregate != Ratio ==> ScannedAt(rows, j, q, t).denominator == None
    ensures ScannedAt(rows, j + 1, q, t)
            == if rows[j].0 == t && Written(rows[j].1, q.aggregate == Ratio)
               then Reading(rows[j].1.value, if q.aggregate == Ratio then rows[j].1.denominator else None)
               else ScannedAt(rows, j, q, t)
  {}

  lemma NothingScanned(rows: seq<(int, Row)>, q: Query, t: int)
    ensures ScannedAt(rows, 0, q, t) == Reading(None, None)
  {}

  /** Writes every returned row into the grid. */
  method ScanAll(q: Query, n: nat, rows: seq<(int, Row)>, ghost table: Table) returns (b: SeriesBuffer)
    requires WholeMillis(q.step) && q.from % q.step == 0 && q.to == q.from + n * q.step
    requires OnGrid(table, q.step) && Answers(rows, table, q.from, q.to)
    ensures fresh(b) && fresh(b.values) && b.Valid()
    ensures b.step == q.step && b.startMS == UnixMilli(q.from) && b.values.Length == n
    ensures forall i :: 0 <= i < n ==> b.ReadingAt(i) == ScannedAt(rows, |rows|, q, q.from + i * q.step)
  {
    hide ScannedAt, Written;
    BucketCountOfMultiple(q.from, n, q.step);
    b := new SeriesBuffer(q.from, q.to, q.step);
    forall i | 0 <= i < n ensures ScannedAt(rows, 0, q, q.from + i * q.step) == Reading(None, None) {
      NothingScanned(rows, q, q.from + i * q.step);
    }
    for j := 0 to |rows|
      invariant b.Valid() && fresh(b) && fresh(b.values) && (b.denominator == null || fresh(b.denominator))
      invariant forall i :: 0 <= i < n ==> b.ReadingAt(i) == ScannedAt(rows, j, q, q.from + i * q.step)
    {
      var k := GridPosition(rows[j].0, q.from, n, q.step);
      IndexOfBoundary(b.Snapshot(), q.from, k);
      OnlyBucket(q.from, q.step, n, k);
      forall i | 0 <= i < n
        ensures q.aggregate != Ratio ==> ScannedAt(rows, j, q, q.from + i * q.step).denominator == None
        ensures ScannedAt(rows, j + 1, q, q.from + i * q.step)
                == if i == k && Written(rows[j].1, q.aggregate == Ratio)
                   then Reading(rows[j].1.value, if q.aggregate == Ratio then rows[j].1.denominator else None)
                   else ScannedAt(rows, j, q, q.from + i * q.step)
      {
        ScannedStep(rows, table, q, j, q.from + i * q.step);
      }
      b.ScanBucket(rows[j].0, rows[j].1, q.aggregate == Ratio);
    }
  }

  lemma ReadingsAreObserved(b: SeriesBuffer, rows: seq<(int, Row)>, table: Table, q: Query, n: nat)
    requires q.step > 0 && q.to == q.from + n * q.step && Answers(rows, table, q.from, q.to)
    requires b.Valid() && b.step == q.step && b.startMS == UnixMilli(q.from) && b.values.Length == n
    requires forall i :: 0 <= i < n ==>
               var r := ScannedAt(rows, |rows|, q, q.from + i * q.step);
               b.ReadingAt(i)
               == if r.value == None && q.aggregate.FillsZero(q.source) then Reading(Some(0.0), r.denominator) else r
    ensures CutOf(b.Snapshot(), t => Observed(table, q, t), q.from, n, q.step)
  {
    var s := b.Snapshot();
    forall i | 0 <= i < n
      ensures Reading(At(s.values, i), At(s.denominator, i)) == Observed(table, q, q.from + i * q.step)
    {
      ScannedIsObserved(rows, table, q, n, i);
      assert b.ReadingAt(i) == Observed(table, q, q.from + i * q.step);
    }
  }

  /**
   What a fetch returns is a stretch of the store's own buckets: absent rows stay unknown, or are
   zero exactly where absence is an observation, and the span asked for changes nothing but reach.
   */
  method Fetch(q: Query, n: nat, rows: seq<(int, Row)>, ghost table: Table) returns (s: Series)
    requires WholeMillis(q.step) && q.from % q.step == 0 && q.to == q.from + n * q.step
    requires OnGrid(table, q.step) && Answers(rows, table, q.from, q.to)
    ensures CutOf(s, t => Observed(table, q, t), q.from, n, q.step)
  {
    var b := ScanAll(q, n, rows, table);
    if q.aggregate.FillsZero(q.source) {
      b.FillZeros();
    }
    ReadingsAreObserved(b, rows, table, q, n);
    s := b.Snapshot();
  }
}
