/**
 The heap as it changes: allocation, the depth-capped copy of a body, and one write in place.
 */
module BodyHeap {
  import opened Bodies

  /** v reads as j, is a tree, and is made only of containers numbered in [lo, hi). */
  ghost predicate Owned(h: Cells, v: Value, j: Json, lo: nat, hi: nat) {
    Denotes(h, v, j) && Tree(h, v, j) && forall r :: r in Footprint(h, v, j) ==> lo <= r < hi
  }

  /** The parts copied so far: each owned, and no two sharing a container. */
  ghost predicate PartsOwned(h: Cells, slots: map<Slot, Value>, done: set<Slot>, j: Json, lo: nat, hi: nat) {
    && done <= slots.Keys
    && (forall s :: s in done ==> Owned(h, slots[s], Part(j, s), lo, hi))
    && (forall s, t :: s in done && t in done && s != t ==>
          Footprint(h, slots[s], Part(j, s)) !! Footprint(h, slots[t], Part(j, t)))
  }

  function Part(j: Json, s: Slot): Json {
    if j.Node? && s in j.parts then j.parts[s] else Null
  }

  ghost predicate Extends(h: Cells, g: Cells) {
    forall r :: r in h ==> r in g && g[r] == h[r]
  }

  lemma OwnedFrame(h: Cells, g: Cells, v: Value, j: Json, lo: nat, hi: nat, hi': nat)
    requires Owned(h, v, j, lo, hi) && hi <= hi' && forall r :: lo <= r < hi && r in h ==> r in g && g[r] == h[r]
    ensures Owned(g, v, j, lo, hi') && Footprint(g, v, j) == Footprint(h, v, j)
  {
    hide Denotes, Tree, Footprint;
    DenotesFrame(h, g, v, j);
  }

  /** One more part, copied into containers newer than all the others'. */
  lemma PartsGrow(h: Cells, g: Cells, slots: map<Slot, Value>, done: set<Slot>, j: Json, s: Slot, c: Value,
                  lo: nat, mid: nat, hi: nat)
    requires PartsOwned(h, slots, done, j, lo, mid) && lo <= mid <= hi && s !in done
    requires forall r :: lo <= r < mid && r in h ==> r in g && g[r] == h[r]
    requires Owned(g, c, Part(j, s), mid, hi)
    ensures PartsOwned(g, slots[s := c], done + {s}, j, lo, hi)
  {
    hide Denotes, Tree, Footprint;
    forall t | t in done
      ensures Owned(g, slots[t], Part(j, t), lo, mid)
      ensures Owned(g, slots[t], Part(j, t), lo, hi)
      ensures Footprint(g, slots[t], Part(j, t)) == Footprint(h, slots[t], Part(j, t))
    {
      OwnedFrame(h, g, slots[t], Part(j, t), lo, mid, mid);
      OwnedFrame(h, g, slots[t], Part(j, t), lo, mid, hi);
    }
  }

  lemma PartsFrame(h: Cells, g: Cells, slots: map<Slot, Value>, done: set<Slot>, j: Json, lo: nat, hi: nat)
    requires PartsOwned(h, slots, done, j, lo, hi)
    requires forall r :: lo <= r < hi && r in h ==> r in g && g[r] == h[r]
    ensures PartsOwned(g, slots, done, j, lo, hi)
  {
    hide Denotes, Tree, Footprint;
    forall t | t in done
      ensures Owned(g, slots[t], Part(j, t), lo, hi)
      ensures Footprint(g, slots[t], Part(j, t)) == Footprint(h, slots[t], Part(j, t))
    {
      OwnedFrame(h, g, slots[t], Part(j, t), lo, hi, hi);
    }
  }

  lemma PartsMakeWhole(h: Cells, r: Ref, j: Json, hi: nat)
    requires j.Node? && r in h && h[r].kind == j.kind && h[r].slots.Keys == j.parts.Keys && r < hi
    requires PartsOwned(h, h[r].slots, j.parts.Keys, j, r + 1, hi)
    ensures Owned(h, Box(r), j, r, hi)
  {
    Assembled(h, Box(r), j, {r} + set s, x | s in j.parts && x in Footprint(h, h[r].slots[s], j.parts[s]) :: x);
  }

  /** How deep a value may still nest for the walk to copy all of it. */
  function Budget(depth: nat): nat {
    if depth > MAX_COPY_DEPTH then 0 else MAX_COPY_DEPTH + 1 - depth
  }

  class Heap {
    var cells: Cells
    var next: Ref

    ghost predicate Valid()
      reads this
    {
      forall r :: r in cells ==> r < next
    }

    constructor ()
      ensures Valid() && cells == map[]
    {
      cells, next := map[], 0;
    }

    method Alloc(kind: Kind) returns (r: Ref)
      requires Valid()
      modifies this
      ensures Valid() && r == old(next) && next == r + 1
      ensures cells == old(cells)[r := Cell(kind, map[])] && r !in old(cells)
    {
      r := next;
      cells, next := cells[r := Cell(kind, map[])], r + 1;
    }

    /**
     The structural walk. It ends on any heap whatever, cyclic ones included, and touches nothing
     that was there before; a value that reads as JSON within the cap comes back as an equal tree
     of containers that did not exist before the call.
     */
    method CopyBodyAt(v: Value, depth: nat, ghost j: Json) returns (out: Value)
      requires Valid()
      modifies this
      ensures Valid() && next >= old(next) && Extends(old(cells), cells)
      ensures Denotes(old(cells), v, j) && Within(j, Budget(depth)) ==> Owned(cells, out, j, old(next), next)
      decreases Budget(depth)
    {
      if depth > MAX_COPY_DEPTH {
        return v;
      }
      match v {
        case Nil => return Nil;
        case Plain(_) => return v;
        case NilOf(_) => return Nil;
        case Box(ref) =>
          if ref !in cells {
            return v;
          }
          out := CopyContainer(cells[ref], ref, depth, j);
      }
    }

    method CopyContainer(source: Cell, ghost ref: Ref, depth: nat, ghost j: Json) returns (out: Value)
      requires Valid() && depth <= MAX_COPY_DEPTH && ref in cells && cells[ref] == source
      modifies this
      ensures Valid() && next >= old(next) && Extends(old(cells), cells)
      ensures Denotes(old(cells), Box(ref), j) && Within(j, Budget(depth)) ==> Owned(cells, out, j, old(next), next)
      decreases Budget(depth), -1
    {
      hide Denotes, Tree, Footprint, Within, Owned, PartsOwned;
      ghost var copies := Denotes(cells, Box(ref), j) && Within(j, Budget(depth));
      ghost var h := cells;
      var r := Alloc(source.kind);
      PartsNone(cells, j, r + 1);
      var todo := source.slots.Keys;
      assert source.slots.Keys - todo == {} && cells[r].slots == map[];
      while todo != {}
        invariant Valid() && Extends(h, cells) && r < next && r !in h
        invariant todo <= source.slots.Keys && r in cells && cells[r].kind == source.kind
        invariant cells[r].slots.Keys == source.slots.Keys - todo
        invariant copies ==> PartsOwned(cells, cells[r].slots, source.slots.Keys - todo, j, r + 1, next)
        decreases todo
      {
        var s :| s in todo;
        ghost var before, mid := cells, next;
        var c := CopyBodyAt(source.slots[s], depth + 1, Part(j, s));
        if copies {
          PartReads(h, before, ref, j, s, depth);
          PartsGrow(before, cells, cells[r].slots, source.slots.Keys - todo, j, s, c, r + 1, mid, next);
        }
        ghost var after := cells;
        cells := cells[r := Cell(source.kind, cells[r].slots[s := c])];
        if copies {
          assert source.slots.Keys - (todo - {s}) == source.slots.Keys - todo + {s};
          PartsFrame(after, cells, cells[r].slots, source.slots.Keys - (todo - {s}), j, r + 1, next);
        }
        todo := todo - {s};
      }
      out := Box(r);
      if copies {
        WholeReads(h, ref, j);
        PartsMakeWhole(cells, r, j, next);
      }
    }

    method CopyBody(v: Value, ghost j: Json) returns (out: Value)
      requires Valid()
      modifies this
      ensures Valid() && next >= old(next) && Extends(old(cells), cells)
      ensures Denotes(old(cells), v, j) && Within(j, MAX_COPY_DEPTH + 1) ==> Owned(cells, out, j, old(next), next)
    {
      out := CopyBodyAt(v, 0, j);
    }

    /** Builds a value from nothing, as a stage does before it hands one over. */
    method Plant(j: Json) returns (v: Value)
      requires Valid()
      modifies this
      ensures Valid() && next >= old(next) && Extends(old(cells), cells)
      ensures Owned(cells, v, j, old(next), next)
      decreases j
    {
      hide Denotes, Tree, Footprint, Owned, PartsOwned;
      if !j.Node? {
        ScalarsOwnNothing(cells, j, next);
        return if j.Leaf? then Plain(j.scalar) else Nil;
      }
      ghost var h := cells;
      var r := Alloc(j.kind);
      PartsNone(cells, j, r + 1);
      var todo := j.parts.Keys;
      assert j.parts.Keys - todo == {} && cells[r].slots == map[];
      while todo != {}
        invariant Valid() && Extends(h, cells) && r < next && r !in h
        invariant todo <= j.parts.Keys && r in cells && cells[r].kind == j.kind
        invariant cells[r].slots.Keys == j.parts.Keys - todo
        invariant PartsOwned(cells, cells[r].slots, j.parts.Keys - todo, j, r + 1, next)
        decreases todo
      {
        var s :| s in todo;
        ghost var before, mid := cells, next;
        var c := Plant(j.parts[s]);
        PartsGrow(before, cells, cells[r].slots, j.parts.Keys - todo, j, s, c, r + 1, mid, next);
        ghost var after := cells;
        cells := cells[r := Cell(j.kind, cells[r].slots[s := c])];
        assert j.parts.Keys - (todo - {s}) == j.parts.Keys - todo + {s};
        PartsFrame(after, cells, cells[r].slots, j.parts.Keys - (todo - {s}), j, r + 1, next);
        todo := todo - {s};
      }
      PartsMakeWhole(cells, r, j, next);
      v := Box(r);
    }
  }

  lemma ScalarsOwnNothing(h: Cells, j: Json, lo: nat)
    requires !j.Node?
    ensures Owned(h, if j.Leaf? then Plain(j.scalar) else Nil, j, lo, lo)
  {}

  lemma PartsNone(h: Cells, j: Json, lo: nat)
    ensures PartsOwned(h, map[], {}, j, lo, lo)
  {}

  lemma WholeReads(h: Cells, ref: Ref, j: Json)
    requires Denotes(h, Box(ref), j)
    ensures j.Node? && ref in h && h[ref].kind == j.kind && h[ref].slots.Keys == j.parts.Keys
  {}

  lemma PartShows(h: Cells, ref: Ref, j: Json, s: Slot, depth: nat)
    requires Denotes(h, Box(ref), j) && Within(j, Budget(depth)) && depth <= MAX_COPY_DEPTH
    requires ref in h && s in h[ref].slots
    ensures Denotes(h, h[ref].slots[s], Part(j, s)) && Within(Part(j, s), Budget(depth + 1))
  {
    assert j.Node? && s in j.parts;
  }

  lemma PartReads(h: Cells, g: Cells, ref: Ref, j: Json, s: Slot, depth: nat)
    requires Denotes(h, Box(ref), j) && Within(j, Budget(depth)) && depth <= MAX_COPY_DEPTH
    requires Extends(h, g) && ref in h && s in h[ref].slots
    ensures Denotes(g, h[ref].slots[s], Part(j, s)) && Within(Part(j, s), Budget(depth + 1))
  {
    hide Denotes, Footprint, Tree, Within, Budget, Part;
    PartShows(h, ref, j, s, depth);
    DenotesFrame(h, g, h[ref].slots[s], Part(j, s));
  }
}
