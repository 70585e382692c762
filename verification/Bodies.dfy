/**
 Message bodies on an explicit heap of containers: what a value in memory denotes as JSON, which
 containers it is made of, and the depth-capped structural copy.
 */
module Bodies {
  import opened Options

  const MAX_COPY_DEPTH := 10000

  type Ref = nat

  datatype Kind = Object | Array

  /** A place in a container: a field of an object, an index of an array. */
  datatype Slot = Field(name: string) | Item(index: nat)

  datatype Scalar = Text(text: string) | Number(number: real) | Flag(on: bool)

  /** A value as a program holds it: nothing, a nil container, an immutable scalar, or a reference. */
  datatype Value = Nil | NilOf(kind: Kind) | Plain(scalar: Scalar) | Box(ref: Ref)

  datatype Cell = Cell(kind: Kind, slots: map<Slot, Value>)

  type Cells = map<Ref, Cell>

  /** A JSON value as a reader sees it. */
  datatype Json = Null | Leaf(scalar: Scalar) | Node(kind: Kind, parts: map<Slot, Json>)

  /** In memory, v reads as j; a nil container reads as null. */
  ghost predicate Denotes(h: Cells, v: Value, j: Json)
    decreases j
  {
    match j
    case Null => v.Nil? || v.NilOf?
    case Leaf(s) => v == Plain(s)
    case Node(kind, parts) =>
      && v.Box? && v.ref in h && h[v.ref].kind == kind && h[v.ref].slots.Keys == parts.Keys
      && forall s :: s in parts ==> Denotes(h, h[v.ref].slots[s], parts[s])
  }

  /** The containers v is made of. */
  ghost function Footprint(h: Cells, v: Value, j: Json): set<Ref>
    requires Denotes(h, v, j)
    decreases j
  {
    if j.Node? then
      {v.ref} + set s, r | s in j.parts && r in Footprint(h, h[v.ref].slots[s], j.parts[s]) :: r
    else {}
  }

  /** No container occurs twice in v. */
  ghost predicate Tree(h: Cells, v: Value, j: Json)
    requires Denotes(h, v, j)
    decreases j
  {
    j.Node? ==>
      && (forall s :: s in j.parts ==>
            Tree(h, h[v.ref].slots[s], j.parts[s]) && v.ref !in Footprint(h, h[v.ref].slots[s], j.parts[s]))
      && (forall s, t :: s in j.parts && t in j.parts && s != t ==>
            Footprint(h, h[v.ref].slots[s], j.parts[s]) !! Footprint(h, h[v.ref].slots[t], j.parts[t]))
  }

  /** Containers nest at most d deep. */
  ghost predicate Within(j: Json, d: nat)
    decreases j
  {
    j.Node? ==> d > 0 && forall s :: s in j.parts ==> Within(j.parts[s], d - 1)
  }

  ghost predicate SameOn(h: Cells, g: Cells, refs: set<Ref>) {
    forall r :: r in refs && r in h ==> r in g && g[r] == h[r]
  }

  lemma {:induction false} FootprintInHeap(h: Cells, v: Value, j: Json)
    requires Denotes(h, v, j)
    ensures forall r :: r in Footprint(h, v, j) ==> r in h
    decreases j
  {
    if j.Node? {
      forall s | s in j.parts ensures forall r :: r in Footprint(h, h[v.ref].slots[s], j.parts[s]) ==> r in h {
        FootprintInHeap(h, h[v.ref].slots[s], j.parts[s]);
      }
    }
  }

  lemma PartFootprint(h: Cells, v: Value, j: Json, s: Slot)
    requires Denotes(h, v, j) && j.Node? && s in j.parts
    ensures Footprint(h, h[v.ref].slots[s], j.parts[s]) <= Footprint(h, v, j)
  {
    forall r | r in Footprint(h, h[v.ref].slots[s], j.parts[s]) ensures r in Footprint(h, v, j) {}
  }

  /** What a value denotes depends on its own containers and nothing else. */
  lemma {:induction false} DenotesFrame(h: Cells, g: Cells, v: Value, j: Json)
    requires Denotes(h, v, j) && SameOn(h, g, Footprint(h, v, j))
    ensures Denotes(g, v, j) && Footprint(g, v, j) == Footprint(h, v, j) && Tree(g, v, j) == Tree(h, v, j)
    decreases j
  {
    if j.Node? {
      assert v.ref in Footprint(h, v, j);
      forall s | s in j.parts
        ensures Denotes(g, g[v.ref].slots[s], j.parts[s])
        ensures Footprint(g, g[v.ref].slots[s], j.parts[s]) == Footprint(h, h[v.ref].slots[s], j.parts[s])
        ensures Tree(g, g[v.ref].slots[s], j.parts[s]) == Tree(h, h[v.ref].slots[s], j.parts[s])
      {
        PartFootprint(h, v, j, s);
        DenotesFrame(h, g, h[v.ref].slots[s], j.parts[s]);
      }
    }
  }

  /** A value denotes one JSON value. */
  lemma {:induction false} DenotesUnique(h: Cells, v: Value, j: Json, k: Json)
    requires Denotes(h, v, j) && Denotes(h, v, k)
    ensures j == k
    decreases j
  {
    if j.Node? {
      forall s | s in j.parts ensures j.parts[s] == k.parts[s] {
        DenotesUnique(h, h[v.ref].slots[s], j.parts[s], k.parts[s]);
      }
      assert j.parts == k.parts;
    }
  }

  // ----- writing in place ------------------------------------------------------------------------

  /** m with the slot set to what there is, or without it when there is nothing. */
  function Changed<T>(m: map<Slot, T>, slot: Slot, x: Option<T>): map<Slot, T> {
    match x
    case Some(v) => m[slot := v]
    case None => m - {slot}
  }

  /** j with the given slot of the container r set to w, or gone, wherever r occurs. */
  ghost function Replaced(h: Cells, v: Value, j: Json, r: Ref, slot: Slot, w: Option<Json>): Json
    requires Denotes(h, v, j)
    decreases j
  {
    if !j.Node? then j
    else if v.ref == r then Node(j.kind, Changed(j.parts, slot, w))
    else Node(j.kind, map s | s in j.parts :: Replaced(h, h[v.ref].slots[s], j.parts[s], r, slot, w))
  }

  /** x reads as w, when there is anything to read. */
  ghost predicate Given(h: Cells, x: Option<Value>, w: Option<Json>) {
    (x.Some? <==> w.Some?) && (x.Some? ==> Denotes(h, x.value, w.value) && Tree(h, x.value, w.value))
  }

  ghost function Reach(h: Cells, x: Option<Value>, w: Option<Json>): set<Ref>
    requires Given(h, x, w)
  {
    if x.Some? then Footprint(h, x.value, w.value) else {}
  }

  lemma {:induction false} ReplacedElsewhere(h: Cells, v: Value, j: Json, r: Ref, slot: Slot, w: Option<Json>)
    requires Denotes(h, v, j) && r !in Footprint(h, v, j)
    ensures Replaced(h, v, j, r, slot, w) == j
    decreases j
  {
    if j.Node? {
      forall s | s in j.parts
        ensures Replaced(h, h[v.ref].slots[s], j.parts[s], r, slot, w) == j.parts[s]
      {
        PartFootprint(h, v, j, s);
        ReplacedElsewhere(h, h[v.ref].slots[s], j.parts[s], r, slot, w);
      }
      assert Replaced(h, v, j, r, slot, w).parts == j.parts;
    }
  }

  function Written(h: Cells, r: Ref, slot: Slot, x: Option<Value>): Cells
    requires r in h
  {
    h[r := h[r].(slots := Changed(h[r].slots, slot, x))]
  }

  /** A node whose parts are trees, apart from each other and from it, is a tree on their containers and its own. */
  lemma Assembled(h: Cells, v: Value, j: Json, all: set<Ref>)
    requires j.Node? && v.Box? && v.ref in h && h[v.ref].kind == j.kind && h[v.ref].slots.Keys == j.parts.Keys
    requires forall s :: s in j.parts ==>
               var c := h[v.ref].slots[s];
               Denotes(h, c, j.parts[s]) && Tree(h, c, j.parts[s])
               && v.ref !in Footprint(h, c, j.parts[s]) && Footprint(h, c, j.parts[s]) <= all
    requires forall s, t :: s in j.parts && t in j.parts && s != t ==>
               Footprint(h, h[v.ref].slots[s], j.parts[s]) !! Footprint(h, h[v.ref].slots[t], j.parts[t])
    requires v.ref in all
    ensures Denotes(h, v, j) && Tree(h, v, j) && Footprint(h, v, j) <= all
  {}

  /** What a write leaves of one value that it may or may not be inside. */
  ghost predicate Rewritten(h: Cells, g: Cells, v: Value, j: Json, k: Json, r: Ref, extra: set<Ref>)
    requires Denotes(h, v, j)
  {
    && Denotes(g, v, k) && Tree(g, v, k) && Footprint(g, v, k) <= Footprint(h, v, j) + extra
    && (r !in Footprint(h, v, j) ==> k == j && Footprint(g, v, k) == Footprint(h, v, j))
  }

  lemma {:induction false} PartRewritten(
      h: Cells, v: Value, j: Json, s: Slot, r: Ref, slot: Slot, x: Option<Value>, w: Option<Json>)
    requires Denotes(h, v, j) && Tree(h, v, j) && j.Node? && s in j.parts && r in h
    requires v.ref == r ==> s != slot
    requires Given(h, x, w) && Reach(h, x, w) !! Footprint(h, v, j)
    ensures var c := h[v.ref].slots[s];
            Rewritten(h, Written(h, r, slot, x), c, j.parts[s],
                      Replaced(h, c, j.parts[s], r, slot, w), r, Reach(h, x, w))
    decreases j, 0
  {
    var c, d := h[v.ref].slots[s], j.parts[s];
    PartFootprint(h, v, j, s);
    if r in Footprint(h, c, d) {
      WriteReplaces(h, c, d, r, slot, x, w);
    } else {
      DenotesFrame(h, Written(h, r, slot, x), c, d);
      ReplacedElsewhere(h, c, d, r, slot, w);
    }
  }

  /** A write through to one container of a tree changes exactly that slot of what the tree denotes. */
  lemma {:induction false} WriteReplaces(
      h: Cells, v: Value, j: Json, r: Ref, slot: Slot, x: Option<Value>, w: Option<Json>)
    requires Denotes(h, v, j) && Tree(h, v, j) && r in Footprint(h, v, j) && r in h
    requires Given(h, x, w) && Reach(h, x, w) !! Footprint(h, v, j)
    ensures Rewritten(h, Written(h, r, slot, x), v, j, Replaced(h, v, j, r, slot, w), r, Reach(h, x, w))
    decreases j, 1
  {
    forall s | s in j.parts && (v.ref == r ==> s != slot)
      ensures var c := h[v.ref].slots[s];
              Rewritten(h, Written(h, r, slot, x), c, j.parts[s],
                        Replaced(h, c, j.parts[s], r, slot, w), r, Reach(h, x, w))
    {
      PartRewritten(h, v, j, s, r, slot, x, w);
    }
    if v.ref == r {
      if x.Some? { DenotesFrame(h, Written(h, r, slot, x), x.value, w.value); }
      WrittenHere(h, v, j, slot, x, w);
    } else {
      WrittenBelow(h, v, j, r, slot, x, w);
    }
  }

  lemma WrittenHere(h: Cells, v: Value, j: Json, slot: Slot, x: Option<Value>, w: Option<Json>)
    requires j.Node? && Denotes(h, v, j) && Tree(h, v, j)
    requires Given(h, x, w) && Reach(h, x, w) !! Footprint(h, v, j)
    requires var g := Written(h, v.ref, slot, x);
             Given(g, x, w) && Reach(g, x, w) == Reach(h, x, w)
    requires forall s | s in j.parts && s != slot ::
               var c := h[v.ref].slots[s];
               Rewritten(h, Written(h, v.ref, slot, x), c, j.parts[s],
                         Replaced(h, c, j.parts[s], v.ref, slot, w), v.ref, Reach(h, x, w))
    ensures Rewritten(h, Written(h, v.ref, slot, x), v, j, Replaced(h, v, j, v.ref, slot, w), v.ref, Reach(h, x, w))
  {
    var g, k := Written(h, v.ref, slot, x), Replaced(h, v, j, v.ref, slot, w);
    forall s | s in j.parts ensures Footprint(h, h[v.ref].slots[s], j.parts[s]) <= Footprint(h, v, j) {
      PartFootprint(h, v, j, s);
    }
    forall s | s in k.parts
      ensures var c := g[v.ref].slots[s];
              Denotes(g, c, k.parts[s]) && Tree(g, c, k.parts[s]) && v.ref !in Footprint(g, c, k.parts[s])
              && Footprint(g, c, k.parts[s])
                 == if s == slot then Reach(h, x, w) else Footprint(h, h[v.ref].slots[s], j.parts[s])
    {
      assert v.ref in Footprint(h, v, j);
      if s != slot {
        assert Rewritten(h, g, h[v.ref].slots[s], j.parts[s],
                         Replaced(h, h[v.ref].slots[s], j.parts[s], v.ref, slot, w), v.ref, Reach(h, x, w));
      }
    }
    Assembled(g, v, k, Footprint(h, v, j) + Reach(h, x, w));
  }

  /** Disjoint sets stay disjoint when only the one that holds r grows, and by x alone. */
  lemma ApartAfter(a: set<Ref>, b: set<Ref>, a': set<Ref>, b': set<Ref>, x: set<Ref>, r: Ref)
    requires a !! b && x !! a && x !! b && a' <= a + x && b' <= b + x
    requires (r !in a ==> a' == a) && (r !in b ==> b' == b)
    ensures a' !! b'
  {}

  lemma NodeFacts(h: Cells, v: Value, j: Json)
    requires j.Node? && Denotes(h, v, j)
    ensures v.Box? && v.ref in h && h[v.ref].kind == j.kind && h[v.ref].slots.Keys == j.parts.Keys
    ensures v.ref in Footprint(h, v, j)
    ensures forall s :: s in j.parts ==>
              Denotes(h, h[v.ref].slots[s], j.parts[s])
              && Footprint(h, h[v.ref].slots[s], j.parts[s]) <= Footprint(h, v, j)
    ensures Tree(h, v, j) ==>
              && (forall s :: s in j.parts ==> v.ref !in Footprint(h, h[v.ref].slots[s], j.parts[s]))
              && (forall s, t :: s in j.parts && t in j.parts && s != t ==>
                    Footprint(h, h[v.ref].slots[s], j.parts[s]) !! Footprint(h, h[v.ref].slots[t], j.parts[t]))
  {
    forall s | s in j.parts ensures Footprint(h, h[v.ref].slots[s], j.parts[s]) <= Footprint(h, v, j) {
      PartFootprint(h, v, j, s);
    }
  }

  lemma ReplacedBelow(h: Cells, v: Value, j: Json, r: Ref, slot: Slot, w: Option<Json>)
    requires j.Node? && Denotes(h, v, j) && v.ref != r
    ensures var k := Replaced(h, v, j, r, slot, w);
            && k.Node? && k.kind == j.kind && k.parts.Keys == j.parts.Keys
            && forall s :: s in j.parts ==> k.parts[s] == Replaced(h, h[v.ref].slots[s], j.parts[s], r, slot, w)
  {}

  lemma WrittenBelow(h: Cells, v: Value, j: Json, r: Ref, slot: Slot, x: Option<Value>, w: Option<Json>)
    requires j.Node? && Denotes(h, v, j) && Tree(h, v, j) && v.ref != r && r in h && r in Footprint(h, v, j)
    requires Given(h, x, w) && Reach(h, x, w) !! Footprint(h, v, j)
    requires forall s | s in j.parts ::
               var c := h[v.ref].slots[s];
               Rewritten(h, Written(h, r, slot, x), c, j.parts[s],
                         Replaced(h, c, j.parts[s], r, slot, w), r, Reach(h, x, w))
    ensures Rewritten(h, Written(h, r, slot, x), v, j, Replaced(h, v, j, r, slot, w), r, Reach(h, x, w))
  {
    hide Denotes, Footprint, Replaced, Tree;
    var g, k, extra := Written(h, r, slot, x), Replaced(h, v, j, r, slot, w), Reach(h, x, w);
    NodeFacts(h, v, j);
    ReplacedBelow(h, v, j, r, slot, w);
    assert g[v.ref] == h[v.ref];
    forall s, t | s in j.parts && t in j.parts && s != t
      ensures Footprint(g, g[v.ref].slots[s], k.parts[s]) !! Footprint(g, g[v.ref].slots[t], k.parts[t])
    {
      var c, d := h[v.ref].slots[s], h[v.ref].slots[t];
      ApartAfter(Footprint(h, c, j.parts[s]), Footprint(h, d, j.parts[t]),
                 Footprint(g, c, k.parts[s]), Footprint(g, d, k.parts[t]), extra, r);
    }
    Assembled(g, v, k, Footprint(h, v, j) + extra);
  }
}
