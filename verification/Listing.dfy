/**
 Following a directory's pages the way a caller does: each cursor rendered at the end of one page and
 read back at the start of the next.
 */
module Listing {
  import opened Options
  import opened Cursors
  import opened Paging

  /** How the database's timestamps and ids are written, and what a written pair stands for. */
  datatype Naming = Naming(instant: int -> Instant, text: nat -> string, key: (Instant, string) -> Key)
  {
    /** The row's timestamp is one RFC 3339 can hold, its id a UUID, and together they name it again. */
    predicate Names(k: Key) {
      && Real(instant(k.at)) && CanonicalUUID(text(k.id)) && key(instant(k.at), text(k.id)) == k
    }

    predicate Resumes(pos: Position) { pos.After? ==> Names(pos.key) }

    function Cursor(pos: Position): string
      requires Resumes(pos)
    {
      match pos
      case Beginning => ""
      case After(k) => EncodeCursor(instant(k.at), text(k.id))
    }

    /** Where a cursor resumes, unless it cannot be read. */
    function Position(cursor: string): Option<Position> {
      match DecodeCursor(cursor)
      case Failure(_) => None
      case Success(Start) => Some(Beginning)
      case Success(Row(at, id)) => Some(After(key(at, id)))
    }
  }

  lemma PositionSurvives(n: Naming, pos: Position)
    requires n.Resumes(pos)
    ensures n.Position(n.Cursor(pos)) == Some(pos)
  {
    hide EncodeCursor, DecodeCursor;
    match pos {
      case Beginning => NoCursor();
      case After(k) => CursorRoundTrip(n.instant(k.at), n.text(k.id));
    }
  }

  lemma NoCursor()
    ensures DecodeCursor("") == Success(Start)
  {}

  ghost predicate AllNamed(n: Naming, tables: seq<set<Key>>) {
    forall i, k :: 0 <= i < |tables| && k in tables[i] ==> n.Names(k)
  }

  lemma NextIsNamed(n: Naming, tables: seq<set<Key>>, limit: nat, pos: Position)
    requires limit > 0 && tables != [] && AllNamed(n, tables)
    ensures var next := PageOf(tables[0], limit, pos).next; next.Some? ==> n.Names(next.value)
  {
    hide PageOf;
    PageFacts(tables[0], limit, pos);
  }

  /** What each successive request finds, followed from a cursor; None when a cursor is refused. */
  ghost function FollowPages(n: Naming, tables: seq<set<Key>>, limit: nat, cursor: string): Option<Trip>
    requires limit > 0 && AllNamed(n, tables)
    decreases |tables|
  {
    if tables == [] then Some(Trip([], 0, false, []))
    else match n.Position(cursor)
      case None => None
      case Some(pos) =>
        NextIsNamed(n, tables, limit, pos);
        var page := PageOf(tables[0], limit, pos);
        if page.next.None? then Some(Trip(page.rows, 1, true, page.rows))
        else match FollowPages(n, tables[1..], limit, n.Cursor(After(page.next.value)))
          case None => None
          case Some(rest) => Some(Trip(page.rows + rest.rows, rest.pages + 1, rest.ended, rest.lastPage))
  }

  /** No cursor the listing gave out is refused, and following them is the traversal the rest is proved of. */
  lemma {:induction false} CursorsFollow(n: Naming, tables: seq<set<Key>>, limit: nat, pos: Position)
    requires limit > 0 && AllNamed(n, tables) && n.Resumes(pos)
    ensures FollowPages(n, tables, limit, n.Cursor(pos)) == Some(Traverse(tables, limit, pos))
    decreases |tables|
  {
    hide PageOf, Naming.Cursor, Naming.Position, Naming.Names;
    PositionSurvives(n, pos);
    if tables != [] {
      NextIsNamed(n, tables, limit, pos);
      var page := PageOf(tables[0], limit, pos);
      if page.next.Some? { CursorsFollow(n, tables[1..], limit, After(page.next.value)); }
    }
  }
}
