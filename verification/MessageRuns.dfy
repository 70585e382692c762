/**
 Any number of messages, any sequence of copies and writes: sharing and copying on the first write
 come to the same as giving every message a body of its own.
 */
module MessageRuns {
  import opened Options
  import opened Bodies
  import opened BodyHeap
  import opened Messages

  /**
   An operation on the i-th message; the copies it makes go to the end. A write sets a slot of the
   container at path, or removes it. What is set or written is any JSON value, built for the purpose.
   */
  datatype Op =
    | CloneIt(i: nat) | ScopeIt(i: nat) | ReportIt(i: nat)
    | SetIt(i: nat, value: Json)
    | SetRaw(i: nat, contentType: string, rawData: string)
    | WriteIt(i: nat, path: seq<Slot>, slot: Slot, part: Option<Json>)

  // ----- what it should come to ------------------------------------------------------------------

  /** j with a slot of the container at path set or gone; unchanged when there is no container there. */
  function PutAt(j: Json, path: seq<Slot>, slot: Slot, w: Option<Json>): Json
    decreases path
  {
    if !j.Node? then j
    else if path == [] then Node(j.kind, Changed(j.parts, slot, w))
    else if path[0] !in j.parts then j
    else Node(j.kind, j.parts[path[0] := PutAt(j.parts[path[0]], path[1..], slot, w)])
  }

  /** Every message a value of its own: copies copy, and a write changes one message and one place. */
  function Stepped(js: seq<Json>, op: Op): seq<Json> {
    if op.i >= |js| then js
    else match op
      case CloneIt(i) => js + [js[i]]
      case ScopeIt(i) => js + [js[i]]
      case ReportIt(i) => js + [js[i]]
      case SetIt(i, w) => js[i := w]
      case SetRaw(i, contentType, rawData) => js[i := RawShape(contentType, rawData)]
      case WriteIt(i, path, slot, w) => js[i := PutAt(js[i], path, slot, w)]
  }

  /** The operation leaves no body nested deeper than a copy goes. */
  ghost predicate Fits(js: seq<Json>, op: Op) {
    forall i :: 0 <= i < |Stepped(js, op)| ==> Within(Stepped(js, op)[i], MAX_COPY_DEPTH + 1)
  }

  function Replayed(js: seq<Json>, ops: seq<Op>): seq<Json> {
    if ops == [] then js else Stepped(Replayed(js, ops[..|ops| - 1]), ops[|ops| - 1])
  }

  // ----- finding the container -------------------------------------------------------------------

  function RefAt(h: Cells, v: Value, path: seq<Slot>): Option<Ref>
    decreases path
  {
    if !v.Box? || v.ref !in h then None
    else if path == [] then Some(v.ref)
    else if path[0] !in h[v.ref].slots then None
    else RefAt(h, h[v.ref].slots[path[0]], path[1..])
  }

  /** In a tree, a write to the container at a path is a write at that path and nowhere else. */
  lemma {:induction false} ReplacedIsPut(h: Cells, v: Value, j: Json, path: seq<Slot>, slot: Slot, w: Option<Json>)
    requires Denotes(h, v, j) && Tree(h, v, j)
    ensures match RefAt(h, v, path)
            case None => PutAt(j, path, slot, w) == j
            case Some(r) =>
              r in h && r in Footprint(h, v, j) && Replaced(h, v, j, r, slot, w) == PutAt(j, path, slot, w)
    decreases path
  {
    hide Denotes, Footprint, Tree, Replaced;
    NodeOrNot(h, v, j);
    if j.Node? {
      NodeFacts(h, v, j);
      if path == [] {
        ReplacedHere(h, v, j, slot, w);
      } else if path[0] in j.parts {
        PartIsTree(h, v, j, path[0]);
        ReplacedIsPut(h, h[v.ref].slots[path[0]], j.parts[path[0]], path[1..], slot, w);
        match RefAt(h, v, path) {
          case None => assert j.parts[path[0] := j.parts[path[0]]] == j.parts;
          case Some(r) => PutBelow(h, v, j, r, path, slot, w);
        }
      }
    }
  }

  lemma NodeOrNot(h: Cells, v: Value, j: Json)
    requires Denotes(h, v, j)
    ensures j.Node? <==> v.Box?
  {}

  lemma ReplacedHere(h: Cells, v: Value, j: Json, slot: Slot, w: Option<Json>)
    requires Denotes(h, v, j) && j.Node?
    ensures Replaced(h, v, j, v.ref, slot, w) == Node(j.kind, Changed(j.parts, slot, w))
  {}

  lemma PutBelow(h: Cells, v: Value, j: Json, r: Ref, path: seq<Slot>, slot: Slot, w: Option<Json>)
    requires Denotes(h, v, j) && Tree(h, v, j) && j.Node? && path != [] && path[0] in j.parts && v.ref in h
    requires path[0] in h[v.ref].slots && Denotes(h, h[v.ref].slots[path[0]], j.parts[path[0]])
    requires var c, d := h[v.ref].slots[path[0]], j.parts[path[0]];
             r in Footprint(h, c, d) && Replaced(h, c, d, r, slot, w) == PutAt(d, path[1..], slot, w)
    ensures r in Footprint(h, v, j) && Replaced(h, v, j, r, slot, w) == PutAt(j, path, slot, w)
  {
    hide Denotes, Footprint, Tree, Replaced;
    NodeFacts(h, v, j);
    ReplacedBelow(h, v, j, r, slot, w);
    forall s | s in j.parts && s != path[0]
      ensures Replaced(h, h[v.ref].slots[s], j.parts[s], r, slot, w) == j.parts[s]
    {
      ReplacedElsewhere(h, h[v.ref].slots[s], j.parts[s], r, slot, w);
    }
    assert Replaced(h, v, j, r, slot, w).parts == PutAt(j, path, slot, w).parts;
  }

  lemma PartIsTree(h: Cells, v: Value, j: Json, s: Slot)
    requires j.Node? && Denotes(h, v, j) && Tree(h, v, j) && s in j.parts
    ensures Tree(h, h[v.ref].slots[s], j.parts[s])
  {}

  // ----- the messages ------------------------------------------------------------------------------

  ghost function Readings(ms: seq<Message>): (js: seq<Json>)
    reads ms
    ensures |js| == |ms| && forall i :: 0 <= i < |ms| ==> js[i] == ms[i].reading
  {
    seq(|ms|, i requires 0 <= i < |ms| reads ms => ms[i].reading)
  }

  ghost function All(ms: seq<Message>): set<Message> { set m | m in ms }

  /** Every message as it should be, and no two of them one. */
  ghost predicate InOrder(heap: Heap, ms: seq<Message>)
    reads heap, ms
  {
    Isolated(heap, All(ms)) && forall i, k :: 0 <= i < k < |ms| ==> ms[i] != ms[k]
  }

  /** A value just built shares nothing with any message, and building it disturbed none. */
  lemma PlantedIsApart(h: Cells, n: nat, g: Cells, n': nat, all: set<Message>, v: Value, w: Json)
    requires IsolatedIn(h, n, all) && Extends(h, g) && n <= n' && Owned(g, v, w, n, n')
    ensures IsolatedIn(g, n', all) && Owned(g, v, w, 0, n')
    ensures forall m :: m in all ==> Footprint(g, m.body, m.reading) !! Footprint(g, v, w)
  {
    hide Denotes, Tree, Footprint, Within, IsolatedIn;
    GrowthKeeps(h, n, g, n', all);
  }

  method Replace(heap: Heap, m: Message, w: Json, ghost all: set<Message>)
    requires Isolated(heap, all) && m in all && Within(w, MAX_COPY_DEPTH + 1)
    modifies heap, m
    ensures Isolated(heap, all) && m.reading == w
  {
    hide Denotes, Tree, Footprint, Within, IsolatedIn, Owned;
    ghost var h, n := heap.cells, heap.next;
    var v := heap.Plant(w);
    PlantedIsApart(h, n, heap.cells, heap.next, all, v, w);
    m.SetBody(heap, v, w, all);
  }

  /** Builds what is to be written, if anything. */
  method PlantSome(heap: Heap, w: Option<Json>, ghost all: set<Message>) returns (x: Option<Value>)
    requires Isolated(heap, all)
    modifies heap
    ensures Isolated(heap, all) && GivenBelow(heap.cells, x, w, heap.next)
    ensures forall m :: m in all ==> Footprint(heap.cells, m.body, m.reading) !! Reach(heap.cells, x, w)
  {
    hide Denotes, Tree, Footprint, Within, IsolatedIn;
    if w.None? {
      EachReads(heap, all);
      return None;
    }
    ghost var h, n := heap.cells, heap.next;
    var v := heap.Plant(w.value);
    PlantedIsApart(h, n, heap.cells, heap.next, all, v, w.value);
    return Some(v);
  }

  lemma EachReads(heap: Heap, all: set<Message>)
    requires Isolated(heap, all)
    ensures forall m :: m in all ==> Denotes(heap.cells, m.body, m.reading)
  {
    hide Denotes, Tree, Footprint, Within;
  }

  method WriteThrough(heap: Heap, m: Message, path: seq<Slot>, slot: Slot, w: Option<Json>, ghost all: set<Message>)
    requires Isolated(heap, all) && m in all && Within(PutAt(m.reading, path, slot, w), MAX_COPY_DEPTH + 1)
    modifies heap, m
    ensures Isolated(heap, all) && m.reading == PutAt(old(m.reading), path, slot, w)
  {
    hide Denotes, Tree, Footprint, Within, Replaced, IsolatedIn, GivenBelow, Reach;
    var v := m.MutableBody(heap, all);
    var x := PlantSome(heap, w, all);
    BodyIsTree(heap, m, all);
    ReplacedIsPut(heap.cells, v, m.reading, path, slot, w);
    var r := RefAt(heap.cells, v, path);
    if r.Some? {
      m.Write(heap, r.value, slot, x, w, all);
    }
  }

  lemma BodyIsTree(heap: Heap, m: Message, all: set<Message>)
    requires Isolated(heap, all) && m in all
    ensures m.Reads(heap) && Denotes(heap.cells, m.body, m.reading) && Tree(heap.cells, m.body, m.reading)
  {
    hide Denotes, Tree, Footprint, Within;
  }

  method Perform(heap: Heap, ms: seq<Message>, op: Op) returns (out: seq<Message>)
    requires InOrder(heap, ms) && Fits(Readings(ms), op)
    modifies heap, ms
    ensures InOrder(heap, out) && ms <= out && forall m :: m in out ==> m in ms || fresh(m)
    ensures Readings(out) == Stepped(old(Readings(ms)), op)
  {
    hide Denotes, Tree, Footprint, Within, IsolatedIn, PutAt, RawShape;
    out := ms;
    if op.i >= |ms| {
      return;
    }
    var m := ms[op.i];
    ghost var all := All(ms);
    assert Within(Stepped(Readings(ms), op)[op.i], MAX_COPY_DEPTH + 1);
    match op {
      case CloneIt(_) =>
        var copy := m.Clone(heap, all);
        out := ms + [copy];
        assert All(out) == all + {copy};
      case ScopeIt(_) =>
        var copy := m.Scoped(heap, all);
        out := ms + [copy];
        assert All(out) == all + {copy};
      case ReportIt(_) =>
        var copy := m.Reported(heap, all);
        out := ms + [copy];
        assert All(out) == all + {copy};
      case SetIt(_, w) =>
        Replace(heap, m, w, all);
      case SetRaw(_, contentType, rawData) =>
        m.SetRawBody(heap, contentType, rawData, all);
      case WriteIt(_, path, slot, w) =>
        WriteThrough(heap, m, path, slot, w, all);
    }
  }

  /** Whatever is done to them, the messages read as if nothing had ever been shared. */
  method PerformAll(heap: Heap, ms: seq<Message>, ops: seq<Op>) returns (out: seq<Message>)
    requires InOrder(heap, ms)
    requires forall k :: 0 <= k < |ops| ==> Fits(Replayed(Readings(ms), ops[..k]), ops[k])
    modifies heap, ms
    ensures InOrder(heap, out) && ms <= out
    ensures Readings(out) == Replayed(old(Readings(ms)), ops)
  {
    hide InOrder, Stepped, Fits;
    out := ms;
    for k := 0 to |ops|
      invariant InOrder(heap, out) && ms <= out && forall m :: m in out ==> m in ms || fresh(m)
      invariant Readings(out) == Replayed(old(Readings(ms)), ops[..k])
    {
      assert ops[..k + 1][..k] == ops[..k];
      assert forall i :: 0 <= i < |out| ==> out[i] in ms || fresh(out[i]);
      out := Perform(heap, out, ops[k]);
    }
    assert ops[..|ops|] == ops;
  }
}
