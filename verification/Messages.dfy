/**
 Messages over the heap: bodies are shared on the way into a scope and copied on the first write,
 and to every message its own body reads as if it had never been shared.
 */
module Messages {
  import opened Options
  import opened Bodies
  import opened BodyHeap

  const INTERNAL_PREFIX := "__"

  predicate Internal(name: string) { INTERNAL_PREFIX <= name }

  const CONTENT_TYPE := Field("contentType")
  const RAW_DATA := Field("rawData")

  function RawShape(contentType: string, rawData: string): Json {
    Node(Object, map[CONTENT_TYPE := Leaf(Text(contentType)), RAW_DATA := Leaf(Text(rawData))])
  }

  datatype Raw = Raw(contentType: string, rawData: string)

  /** The raw payload a body holds, if it has the raw-content shape. */
  function RawIn(j: Json): Option<Raw> {
    if !j.Node? || j.kind != Object then None
    else match (Part(j, CONTENT_TYPE), Part(j, RAW_DATA))
      case (Leaf(Text(c)), Leaf(Text(d))) => Some(Raw(c, d))
      case _ => None
  }

  class Variables {
    var entries: map<string, Value>

    constructor (entries: map<string, Value>)
      ensures this.entries == entries
    {
      this.entries := entries;
    }
  }

  /** reads is what the message's body says to whoever looks at it. */
  class Message {
    var eventID: string
    var correlationID: string
    var variables: Variables?
    var body: Value
    var bodySchema: seq<bv8>
    var rawContent: bool
    var bodyShared: bool
    ghost var reading: Json

    ghost predicate Reads(heap: Heap)
      reads this, heap
    {
      Owned(heap.cells, body, reading, 0, heap.next) && Within(reading, MAX_COPY_DEPTH + 1)
    }

    /** The containers the message's body is made of. */
    ghost function Containers(heap: Heap): set<Ref>
      requires Reads(heap)
      reads this, heap
    {
      Footprint(heap.cells, body, reading)
    }

    constructor (eventID: string, correlationID: string)
      ensures this.eventID == eventID && this.correlationID == correlationID
      ensures fresh(variables) && variables.entries == map[] && body == Nil && reading == Null
      ensures !rawContent && !bodyShared
    {
      this.eventID, this.correlationID := eventID, correlationID;
      variables := new Variables(map[]);
      body, bodySchema, rawContent, bodyShared := Nil, [], false, false;
      reading := Null;
    }

    constructor CopyOf(m: Message)
      ensures eventID == m.eventID && correlationID == m.correlationID && body == m.body
      ensures bodySchema == m.bodySchema && rawContent == m.rawContent && bodyShared == m.bodyShared
      ensures reading == m.reading && variables == m.variables
    {
      eventID, correlationID, variables, body := m.eventID, m.correlationID, m.variables, m.body;
      bodySchema, rawContent, bodyShared := m.bodySchema, m.rawContent, m.bodyShared;
      reading := m.reading;
    }

    /** Everything but the body is the copy's own; the body is still the receiver's. */
    method Shallow() returns (out: Message)
      ensures fresh(out) && out.eventID == eventID && out.correlationID == correlationID
      ensures out.bodySchema == bodySchema && out.rawContent == rawContent && out.bodyShared == bodyShared
      ensures out.body == body && out.reading == reading
      ensures if variables == null then out.variables == null
              else fresh(out.variables) && out.variables.entries == variables.entries
    {
      out := new Message.CopyOf(this);
      if variables != null {
        out.variables := new Variables(variables.entries);
      }
    }

    /** The copy that shares nothing: it reads the same, from containers of its own. */
    method Clone(heap: Heap, ghost all: set<Message>) returns (out: Message)
      requires Isolated(heap, all) && this in all
      modifies heap
      ensures fresh(out) && Isolated(heap, all + {out})
      ensures out.reading == reading && !out.bodyShared
      ensures out.Reads(heap) && forall m :: m in all ==> m.Reads(heap) && m.Containers(heap) !! out.Containers(heap)
      ensures out.eventID == eventID && out.correlationID == correlationID && out.rawContent == rawContent
      ensures if variables == null then out.variables == null
              else fresh(out.variables) && out.variables.entries == variables.entries
    {
      hide Denotes, Tree, Footprint, Within;
      out := Shallow();
      ghost var h, n := heap.cells, heap.next;
      var copy := heap.CopyBody(body, reading);
      out.body, out.bodyShared := copy, false;
      GrowthKeeps(h, n, heap.cells, heap.next, all);
      NewIsApart(h, n, heap.cells, heap.next, all, out);
    }

    /** The copy that shares the body: both sides are marked, and neither can tell. */
    method Scoped(heap: Heap, ghost all: set<Message>) returns (out: Message)
      requires Isolated(heap, all) && this in all
      modifies this`bodyShared
      ensures fresh(out) && Isolated(heap, all + {out})
      ensures out.reading == reading && out.body == body && bodyShared && out.bodyShared
      ensures out.eventID == eventID && out.correlationID == correlationID && out.rawContent == rawContent
      ensures if variables == null then out.variables == null
              else fresh(out.variables) && out.variables.entries == variables.entries
    {
      hide Denotes, Tree, Footprint, Within;
      out := Shallow();
      bodyShared := true;
      out.bodyShared := true;
    }

    /** A scoped copy without the runtime's own variables; the receiver keeps all of its own. */
    method Reported(heap: Heap, ghost all: set<Message>) returns (out: Message)
      requires Isolated(heap, all) && this in all
      modifies this`bodyShared
      ensures fresh(out) && Isolated(heap, all + {out}) && out.reading == reading && bodyShared && out.bodyShared
      ensures if variables == null then out.variables == null
              else fresh(out.variables)
                   && (forall k :: k in out.variables.entries <==> k in variables.entries && !Internal(k))
                   && (forall k :: k in out.variables.entries ==> out.variables.entries[k] == variables.entries[k])
    {
      hide Denotes, Tree, Footprint, Within;
      out := Scoped(heap, all);
      if out.variables != null {
        var names := out.variables.entries.Keys;
        while names != {}
          invariant names <= variables.entries.Keys
          invariant forall k :: k in out.variables.entries <==>
                      k in variables.entries && (k in names || !Internal(k))
          invariant forall k :: k in out.variables.entries ==> out.variables.entries[k] == variables.entries[k]
          modifies out.variables
          decreases names
        {
          var name :| name in names;
          if Internal(name) {
            out.variables.entries := out.variables.entries - {name};
          }
          names := names - {name};
        }
      }
    }

    /** The body for writing into: its own, after one copy at most, and reading what it read before. */
    method MutableBody(heap: Heap, ghost all: set<Message>) returns (v: Value)
      requires Isolated(heap, all) && this in all
      modifies heap, this`body, this`bodyShared
      ensures Isolated(heap, all) && !bodyShared && v == body
      ensures Reads(heap)
      ensures forall m :: m in all && m != this ==> m.Reads(heap) && m.Containers(heap) !! Containers(heap)
      ensures !old(bodyShared) ==> heap.cells == old(heap.cells) && body == old(body)
    {
      hide Denotes, Tree, Footprint, Within;
      if bodyShared {
        ghost var h, n := heap.cells, heap.next;
        var copy := heap.CopyBody(body, reading);
        GrowthKeeps(h, n, heap.cells, heap.next, all);
        body, bodyShared := copy, false;
        NewIsApart(h, n, heap.cells, heap.next, all - {this}, this);
        assert all - {this} + {this} == all;
      }
      v := body;
    }

    /** Replaces the body by a value nobody else holds, and leaves raw-content mode. */
    method SetBody(heap: Heap, v: Value, ghost j: Json, ghost all: set<Message>)
      requires Isolated(heap, all) && this in all
      requires Owned(heap.cells, v, j, 0, heap.next) && Within(j, MAX_COPY_DEPTH + 1)
      requires forall m :: m in all && m != this ==> m.Containers(heap) !! Footprint(heap.cells, v, j)
      modifies this`body, this`rawContent, this`reading
      ensures Isolated(heap, all) && reading == j && body == v && !rawContent
    {
      hide Denotes, Tree, Footprint, Within;
      body, rawContent := v, false;
      reading := j;
    }

    /** Raw-content mode: the body becomes a fresh container of the raw shape. */
    method SetRawBody(heap: Heap, contentType: string, rawData: string, ghost all: set<Message>)
      requires Isolated(heap, all) && this in all
      modifies heap, this`body, this`rawContent, this`reading
      ensures Isolated(heap, all) && reading == RawShape(contentType, rawData) && rawContent
      ensures RawIn(reading) == Some(Raw(contentType, rawData))
    {
      hide Denotes, Tree, Footprint, Within, RawIn;
      ghost var h, n := heap.cells, heap.next;
      var r := heap.Alloc(Object);
      heap.cells := heap.cells[r := Cell(Object, map[CONTENT_TYPE := Plain(Text(contentType)),
                                                     RAW_DATA := Plain(Text(rawData))])];
      RawShapeReads(heap.cells, r, contentType, rawData);
      GrowthKeeps(h, n, heap.cells, heap.next, all);
      body, rawContent := Box(r), true;
      reading := RawShape(contentType, rawData);
      NewIsApart(h, n, heap.cells, heap.next, all - {this}, this);
      assert all - {this} + {this} == all;
    }

    /** What a raw-aware sink is served: the payload, only in raw-content mode and only in its shape. */
    method RawBody(heap: Heap) returns (raw: Option<Raw>)
      requires Reads(heap)
      ensures raw == if rawContent then RawIn(reading) else None
    {
      if !rawContent || !body.Box? || heap.cells[body.ref].kind != Object {
        return None;
      }
      var fields := heap.cells[body.ref].slots;
      LeavesShow(heap.cells, body, reading, CONTENT_TYPE);
      LeavesShow(heap.cells, body, reading, RAW_DATA);
      if CONTENT_TYPE in fields && RAW_DATA in fields {
        if fields[CONTENT_TYPE].Plain? && fields[CONTENT_TYPE].scalar.Text? {
          if fields[RAW_DATA].Plain? && fields[RAW_DATA].scalar.Text? {
            return Some(Raw(fields[CONTENT_TYPE].scalar.text, fields[RAW_DATA].scalar.text));
          }
        }
      }
      return None;
    }

    /**
     A write through to one container of a body obtained for writing, setting a slot or removing it:
     the message's own reading changes in that slot and nowhere else, and every other message goes on
     reading what it read.
     */
    method Write(heap: Heap, r: Ref, slot: Slot, x: Option<Value>, ghost w: Option<Json>, ghost all: set<Message>)
      requires Isolated(heap, all) && this in all && !bodyShared && r in Containers(heap) && r in heap.cells
      requires GivenBelow(heap.cells, x, w, heap.next)
      requires forall m :: m in all ==> m.Containers(heap) !! Reach(heap.cells, x, w)
      requires Within(Replaced(heap.cells, body, reading, r, slot, w), MAX_COPY_DEPTH + 1)
      modifies heap, this`reading
      ensures Isolated(heap, all)
      ensures reading == Replaced(old(heap.cells), body, old(reading), r, slot, w)
    {
      hide Denotes, Tree, Footprint, Within, Replaced, Given, Changed;
      ghost var h, k := heap.cells, Replaced(heap.cells, body, reading, r, slot, w);
      hide Owned, GivenBelow;
      WriterKeeps(h, heap.next, body, reading, r, slot, x, w);
      OthersKeep(h, heap.next, r, slot, x, all - {this});
      OthersStayApart(h, heap.next, r, slot, x, w, all, this, k);
      heap.cells := heap.cells[r := heap.cells[r].(slots := Changed(heap.cells[r].slots, slot, x))];
      reading := k;
      assert heap.cells == Written(h, r, slot, x);
      assert all - {this} + {this} == all;
    }
  }

  /** What is to be written, if anything, is a tree of containers already made. */
  ghost predicate GivenBelow(h: Cells, x: Option<Value>, w: Option<Json>, n: nat) {
    Given(h, x, w) && forall r :: r in Reach(h, x, w) ==> r < n
  }

  /** A slot reads as a scalar exactly when it holds that scalar. */
  lemma LeavesShow(h: Cells, v: Value, j: Json, s: Slot)
    requires Denotes(h, v, j) && v.Box?
    ensures j.Node? && h[v.ref].kind == j.kind
    ensures forall t: Scalar :: (s in h[v.ref].slots && h[v.ref].slots[s] == Plain(t)) <==> Part(j, s) == Leaf(t)
  {}

  lemma WriterKeeps(h: Cells, n: nat, v: Value, j: Json, r: Ref, slot: Slot, x: Option<Value>, w: Option<Json>)
    requires Owned(h, v, j, 0, n) && r in h && r in Footprint(h, v, j)
    requires GivenBelow(h, x, w, n) && Reach(h, x, w) !! Footprint(h, v, j)
    ensures var g, k := Written(h, r, slot, x), Replaced(h, v, j, r, slot, w);
            Owned(g, v, k, 0, n) && Footprint(g, v, k) <= Footprint(h, v, j) + Reach(h, x, w)
  {
    hide Denotes, Tree, Footprint, Replaced;
    WriteReplaces(h, v, j, r, slot, x, w);
  }

  lemma OthersStayApart(
      h: Cells, n: nat, r: Ref, slot: Slot, x: Option<Value>, w: Option<Json>,
      all: set<Message>, me: Message, k: Json)
    requires IsolatedIn(h, n, all) && me in all && !me.bodyShared && r in h && r in Footprint(h, me.body, me.reading)
    requires GivenBelow(h, x, w, n) && forall m :: m in all ==> Footprint(h, m.body, m.reading) !! Reach(h, x, w)
    requires IsolatedIn(Written(h, r, slot, x), n, all - {me})
    requires forall m :: m in all - {me} ==>
               Footprint(Written(h, r, slot, x), m.body, m.reading) == Footprint(h, m.body, m.reading)
    requires Owned(Written(h, r, slot, x), me.body, k, 0, n)
    requires Footprint(Written(h, r, slot, x), me.body, k) <= Footprint(h, me.body, me.reading) + Reach(h, x, w)
    ensures forall m :: m in all - {me} ==>
              Footprint(Written(h, r, slot, x), m.body, m.reading) !! Footprint(Written(h, r, slot, x), me.body, k)
  {
    hide Denotes, Tree, Footprint, Within;
  }

  /**
   Every body reads as recorded, and a message whose body is not marked shared has no container in
   common with any other message. No two messages have a variables map in common either.
   */
  ghost predicate IsolatedIn(h: Cells, next: nat, all: set<Message>)
    reads all
  {
    && (forall m :: m in all ==> Owned(h, m.body, m.reading, 0, next) && Within(m.reading, MAX_COPY_DEPTH + 1))
    && (forall a, b :: a in all && b in all && a != b && !(a.bodyShared && b.bodyShared) ==>
          Footprint(h, a.body, a.reading) !! Footprint(h, b.body, b.reading))
    && (forall a, b :: a in all && b in all && a != b && a.variables != null ==> a.variables != b.variables)
  }

  ghost predicate Isolated(heap: Heap, all: set<Message>)
    reads heap, all
  {
    heap.Valid() && IsolatedIn(heap.cells, heap.next, all)
  }

  /** Allocation elsewhere disturbs nobody. */
  lemma GrowthKeeps(h: Cells, n: nat, g: Cells, n': nat, all: set<Message>)
    requires IsolatedIn(h, n, all) && Extends(h, g) && n <= n'
    ensures IsolatedIn(g, n', all)
    ensures forall m :: m in all ==> Owned(h, m.body, m.reading, 0, n)
                                     && Footprint(g, m.body, m.reading) == Footprint(h, m.body, m.reading)
  {
    hide Denotes, Tree, Footprint, Within;
    forall m | m in all
      ensures Owned(g, m.body, m.reading, 0, n')
      ensures Footprint(g, m.body, m.reading) == Footprint(h, m.body, m.reading)
    {
      OwnedFrame(h, g, m.body, m.reading, 0, n, n');
    }
  }

  /** A message made of newer containers than everyone else's is apart from them all. */
  lemma NewIsApart(h: Cells, n: nat, g: Cells, n': nat, all: set<Message>, out: Message)
    requires IsolatedIn(g, n', all) && out !in all
    requires forall m :: m in all ==> Owned(h, m.body, m.reading, 0, n)
                                      && Footprint(g, m.body, m.reading) == Footprint(h, m.body, m.reading)
    requires Owned(g, out.body, out.reading, n, n') && Within(out.reading, MAX_COPY_DEPTH + 1)
    requires forall m :: m in all && out.variables != null ==> m.variables != out.variables
    ensures IsolatedIn(g, n', all + {out})
    ensures forall m :: m in all ==> Footprint(g, m.body, m.reading) !! Footprint(g, out.body, out.reading)
  {
    hide Denotes, Tree, Footprint, Within;
  }

  lemma RawShapeReads(h: Cells, r: Ref, contentType: string, rawData: string)
    requires r in h
    requires h[r] == Cell(Object, map[CONTENT_TYPE := Plain(Text(contentType)), RAW_DATA := Plain(Text(rawData))])
    ensures Owned(h, Box(r), RawShape(contentType, rawData), r, r + 1)
    ensures Within(RawShape(contentType, rawData), MAX_COPY_DEPTH + 1)
    ensures RawIn(RawShape(contentType, rawData)) == Some(Raw(contentType, rawData))
  {
    var j := RawShape(contentType, rawData);
    assert j.parts.Keys == {CONTENT_TYPE, RAW_DATA};
    assert Denotes(h, Box(r), j);
    assert Footprint(h, Box(r), j) == {r};
  }

  /** Writing to a container of one message leaves the others as they were. */
  lemma OthersKeep(h: Cells, n: nat, r: Ref, slot: Slot, x: Option<Value>, all: set<Message>)
    requires IsolatedIn(h, n, all) && r in h
    requires forall m :: m in all ==> r !in Footprint(h, m.body, m.reading)
    ensures IsolatedIn(Written(h, r, slot, x), n, all)
    ensures forall m :: m in all ==>
              && Owned(h, m.body, m.reading, 0, n)
              && Footprint(Written(h, r, slot, x), m.body, m.reading) == Footprint(h, m.body, m.reading)
  {
    hide Denotes, Tree, Footprint, Within;
    var g := Written(h, r, slot, x);
    forall m | m in all
      ensures Owned(g, m.body, m.reading, 0, n)
      ensures Footprint(g, m.body, m.reading) == Footprint(h, m.body, m.reading)
    {
      DenotesFrame(h, g, m.body, m.reading);
    }
  }
}
