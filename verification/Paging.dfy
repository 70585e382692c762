/**
 Keyset paging over a directory that changes between requests: each page resumes strictly after
 the last row returned, so what the traversal yields depends only on what was there throughout.
 */
module Paging {
  import opened Options
  import LikeSearch

  // ----- what a listing selects ----------------------------------------------------------------------

  datatype Person = Person(createdAt: int, name: string, email: string, roles: set<string>)

  /** A directory, by id. */
  type Table = map<nat, Person>

  /** The listing's WHERE clause: the search as a pattern over name and address, and the role held. */
  ghost predicate Selects(p: Person, query: string, role: string) {
    var pattern := "%" + (LikeSearch.EscapeLike(query) + "%");
    && (query == "" || LikeSearch.Matches(pattern, p.name) || LikeSearch.Matches(pattern, p.email))
    && (role == "" || role in p.roles)
  }

  /** So a row is listed exactly when the search occurs in its name or its address, and it holds the role. */
  lemma SelectsExactly(p: Person, query: string, role: string)
    ensures Selects(p, query, role) <==>
              (LikeSearch.Occurs(query, p.name) || LikeSearch.Occurs(query, p.email)) && (role == "" || role in p.roles)
  {
    LikeSearch.SearchFindsExactly(query, p.name);
    LikeSearch.SearchFindsExactly(query, p.email);
    if query == "" { assert LikeSearch.StartsWith(p.name[0..], query); }
  }

  /** What rows are ordered by: when they were created, and their id. */
  datatype Key = Key(at: int, id: nat)
  {
    predicate Before(other: Key) { at < other.at || (at == other.at && id < other.id) }
  }

  ghost function Keys(table: Table, query: string, role: string): set<Key> {
    set id | id in table && Selects(table[id], query, role) :: Key(table[id].createdAt, id)
  }

  // ----- order ---------------------------------------------------------------------------------------

  predicate Ascending(ks: seq<Key>) {
    forall i, j :: 0 <= i < j < |ks| ==> ks[i].Before(ks[j])
  }

  ghost function Least(ks: set<Key>): (k: Key)
    requires ks != {}
    ensures k in ks && forall x :: x in ks && x != k ==> k.Before(x)
  {
    var k :| k in ks;
    var rest := ks - {k};
    assert forall x :: x in ks && x != k ==> x in rest;
    if rest == {} then k
    else
      var l := Least(rest);
      assert l == k || l.Before(k) || k.Before(l);
      assert forall x :: x in rest ==> x == l || l.Before(x);
      if l.Before(k) then l else k
  }

  /** The rows of a result set, in the order asked for. */
  ghost function Sorted(ks: set<Key>): (r: seq<Key>)
    ensures Ascending(r) && |r| == |ks| && forall k :: k in r <==> k in ks
  {
    if ks == {} then []
    else
      var k := Least(ks);
      var rest := Sorted(ks - {k});
      assert forall x :: x in ([k] + rest) <==> x == k || x in rest;
      [k] + rest
  }

  lemma SomeMember(b: seq<Key>)
    ensures b != [] ==> exists k :: k in b
  {
    assert b != [] ==> b[0] in b;
  }

  /** Ascending sequences are their sets. */
  lemma {:induction false} AscendingIsUnique(a: seq<Key>, b: seq<Key>)
    requires Ascending(a) && Ascending(b) && forall k :: k in a <==> k in b
    ensures a == b
  {
    if a == [] {
      SomeMember(b);
    } else {
      assert a[0] in a && a[0] in b;
      assert b[0] in b && b[0] in a;
      assert a[0] == b[0];
      forall k ensures k in a[1..] <==> k in b[1..] {
        assert k in a[1..] ==> k in a && k != a[0];
        assert k in b[1..] ==> k in b && k != b[0];
      }
      AscendingIsUnique(a[1..], b[1..]);
      assert a == [a[0]] + a[1..] && b == [b[0]] + b[1..];
    }
  }

  // ----- one page ------------------------------------------------------------------------------------

  /** Where a page resumes from. */
  datatype Position = Beginning | After(key: Key)
  {
    predicate Reaches(k: Key) { Beginning? || key.Before(k) }
  }

  ghost function Ahead(ks: set<Key>, pos: Position): set<Key> {
    set k | k in ks && pos.Reaches(k)
  }

  datatype Page = Page(rows: seq<Key>, next: Option<Key>)

  ghost function PageOf(ks: set<Key>, limit: nat, pos: Position): Page
    requires limit > 0
  {
    var all := Sorted(Ahead(ks, pos));
    if |all| > limit then Page(all[..limit], Some(all[limit - 1])) else Page(all, None)
  }

  /** Reads one row more than asked for, to know whether there is a next page. */
  method List(answer: seq<Key>, limit: nat, pos: Position, ghost ks: set<Key>) returns (page: Page)
    requires limit > 0
    requires var all := Sorted(Ahead(ks, pos)); answer == if |all| > limit then all[..limit + 1] else all
    ensures page == PageOf(ks, limit, pos)
  {
    hide Sorted, Ahead;
    var users: seq<Key> := [];
    for i := 0 to |answer|
      invariant users == answer[..i]
    {
      users := users + [answer[i]];
    }
    if |users| > limit {
      var last := users[limit - 1];
      return Page(users[..limit], Some(last));
    }
    return Page(users, None);
  }

  const DEFAULT_PAGE_SIZE := 25
  const MAX_PAGE_SIZE := 100

  function PageSize(limit: int): (n: nat)
    ensures 1 <= n <= MAX_PAGE_SIZE && (1 <= limit <= MAX_PAGE_SIZE ==> n == limit)
  {
    if limit <= 0 then DEFAULT_PAGE_SIZE else if limit > MAX_PAGE_SIZE then MAX_PAGE_SIZE else limit
  }

  lemma SortedFacts(ks: set<Key>, pos: Position)
    ensures var all := Sorted(Ahead(ks, pos));
            Ascending(all) && forall k :: k in all <==> k in ks && pos.Reaches(k)
  {}

  lemma PageFacts(ks: set<Key>, limit: nat, pos: Position)
    requires limit > 0
    ensures var p := PageOf(ks, limit, pos);
            && Ascending(p.rows) && (forall k :: k in p.rows ==> k in ks && pos.Reaches(k))
            && (p.next.None? ==> forall k :: k in ks && pos.Reaches(k) ==> k in p.rows)
            && (p.next.Some? ==>
                  && p.rows != [] && p.next.value == p.rows[|p.rows| - 1] && pos.Reaches(p.next.value)
                  && (forall k :: k in p.rows ==> k == p.next.value || k.Before(p.next.value))
                  && (forall k :: k in ks && pos.Reaches(k) ==> k in p.rows || p.next.value.Before(k)))
  {
    hide Sorted, Ahead;
    var all := Sorted(Ahead(ks, pos));
    SortedFacts(ks, pos);
    if |all| > limit {
      var last := all[limit - 1];
      assert last in all && all[..limit][limit - 1] == last;
      forall k | k in all[..limit] ensures k in all && (k == last || k.Before(last)) {
        var i :| 0 <= i < limit && all[..limit][i] == k;
        assert all[i] == k;
      }
      forall k | k in all ensures k in all[..limit] || last.Before(k) {
        var i :| 0 <= i < |all| && all[i] == k;
        assert i < limit ==> all[..limit][i] == k;
      }
    }
  }

  // ----- a whole traversal -----------------------------------------------------------------------------

  /** What following cursors yields, and whether the last page said there was no more. */
  datatype Trip = Trip(rows: seq<Key>, pages: nat, ended: bool, lastPage: seq<Key>)

  /** tables is what each successive request finds. */
  ghost function Traverse(tables: seq<set<Key>>, limit: nat, pos: Position): Trip
    requires limit > 0
    decreases |tables|
  {
    if tables == [] then Trip([], 0, false, [])
    else
      var page := PageOf(tables[0], limit, pos);
      match page.next
      case None => Trip(page.rows, 1, true, page.rows)
      case Some(k) =>
        var rest := Traverse(tables[1..], limit, After(k));
        Trip(page.rows + rest.rows, rest.pages + 1, rest.ended, rest.lastPage)
  }

  /**
   Whatever happens between the requests: rows come in order, none twice, each from the table its
   page was read from, and every row that was there throughout is among them.
   */
  lemma {:induction false} TraversalIsFaithful(tables: seq<set<Key>>, limit: nat, pos: Position)
    requires limit > 0
    ensures var t := Traverse(tables, limit, pos);
            && Ascending(t.rows) && (forall k :: k in t.rows ==> pos.Reaches(k))
            && (forall k :: k in t.rows ==> exists i :: 0 <= i < |tables| && k in tables[i])
            && (t.ended ==>
                  forall k :: pos.Reaches(k) && (forall i :: 0 <= i < |tables| ==> k in tables[i]) ==> k in t.rows)
    decreases |tables|
  {
    hide PageOf;
    if tables != [] {
      var page := PageOf(tables[0], limit, pos);
      PageFacts(tables[0], limit, pos);
      if page.next.Some? {
        var rest := Traverse(tables[1..], limit, After(page.next.value));
        TraversalIsFaithful(tables[1..], limit, After(page.next.value));
        var all := page.rows + rest.rows;
        forall i, j | 0 <= i < j < |all| ensures all[i].Before(all[j]) {
          assert i < |page.rows| ==> all[i] in page.rows;
          assert j >= |page.rows| ==> all[j] in rest.rows;
        }
        forall k | k in all ensures exists i :: 0 <= i < |tables| && k in tables[i] {
          if k !in page.rows {
            var i :| 0 <= i < |tables[1..]| && k in tables[1..][i];
            assert k in tables[i + 1];
          }
        }
      }
    }
  }

  // ----- a table that stays put --------------------------------------------------------------------------

  function Unchanged(ks: set<Key>, n: nat): seq<set<Key>> { seq(n, _ => ks) }

  lemma AscendingSplit(all: seq<Key>, at: nat, k: Key)
    requires Ascending(all) && 0 < at < |all|
    ensures k in all[at..] <==> k in all && all[at - 1].Before(k)
    ensures Ascending(all[at..])
  {
    if k in all[at..] {
      var i :| 0 <= i < |all[at..]| && all[at..][i] == k;
      assert all[at + i] == k && all[at - 1].Before(all[at + i]);
    }
    if k in all && all[at - 1].Before(k) {
      var i :| 0 <= i < |all| && all[i] == k;
      assert i >= at;
      assert all[at..][i - at] == k;
    }
  }

  lemma AheadOfPage(ks: set<Key>, limit: nat, pos: Position)
    requires limit > 0 && |Sorted(Ahead(ks, pos))| > limit
    ensures var all := Sorted(Ahead(ks, pos));
            Sorted(Ahead(ks, After(all[limit - 1]))) == all[limit..]
  {
    hide Sorted, Ahead;
    var all := Sorted(Ahead(ks, pos));
    var last := all[limit - 1];
    var rest := Sorted(Ahead(ks, After(last)));
    SortedFacts(ks, pos);
    SortedFacts(ks, After(last));
    assert last in all;
    forall k ensures k in rest <==> k in all[limit..] {
      AscendingSplit(all, limit, k);
    }
    AscendingSplit(all, limit, last);
    AscendingIsUnique(rest, all[limit..]);
  }

  /** How many requests a listing of n rows takes. */
  function PagesFor(n: nat, limit: nat): nat
    requires limit > 0
  {
    if n <= limit then 1 else 1 + PagesFor(n - limit, limit)
  }

  /**
   On a table nobody touches the pages are the whole listing cut into pages, the traversal ends
   after exactly as many as that takes, and it never ends on an empty one.
   */
  lemma {:induction false} StableTraversal(ks: set<Key>, limit: nat, pos: Position, n: nat)
    requires limit > 0 && n >= PagesFor(|Sorted(Ahead(ks, pos))|, limit)
    ensures var t := Traverse(Unchanged(ks, n), limit, pos);
            && t.ended && t.rows == Sorted(Ahead(ks, pos)) && t.pages == PagesFor(|t.rows|, limit)
            && (t.lastPage == [] ==> t.rows == [])
    decreases n
  {
    hide Sorted, Ahead, Traverse, Unchanged;
    var all := Sorted(Ahead(ks, pos));
    FirstRequest(ks, limit, pos, n);
    if |all| > limit {
      AheadOfPage(ks, limit, pos);
      StableTraversal(ks, limit, After(all[limit - 1]), n - 1);
      assert all == all[..limit] + all[limit..];
    }
  }

  lemma FirstRequest(ks: set<Key>, limit: nat, pos: Position, n: nat)
    requires limit > 0 && n > 0
    ensures var all := Sorted(Ahead(ks, pos));
            Traverse(Unchanged(ks, n), limit, pos)
            == if |all| > limit then
                 var rest := Traverse(Unchanged(ks, n - 1), limit, After(all[limit - 1]));
                 Trip(all[..limit] + rest.rows, rest.pages + 1, rest.ended, rest.lastPage)
               else Trip(all, 1, true, all)
  {
    hide Sorted, Ahead;
    assert Unchanged(ks, n)[0] == ks && Unchanged(ks, n)[1..] == Unchanged(ks, n - 1);
  }

  /** What each successive request finds. */
  ghost function Found(tables: seq<Table>, query: string, role: string): seq<set<Key>> {
    seq(|tables|, i requires 0 <= i < |tables| => Keys(tables[i], query, role))
  }

  /** And a person who stays in the directory, and matches throughout, is listed exactly once. */
  lemma PresentThroughoutIsListedOnce(
      tables: seq<Table>, query: string, role: string, limit: nat, id: nat, at: int) returns (where: nat)
    requires limit > 0
    requires forall i :: 0 <= i < |tables| ==>
               id in tables[i] && tables[i][id].createdAt == at && Selects(tables[i][id], query, role)
    requires Traverse(Found(tables, query, role), limit, Beginning).ended
    ensures var rows := Traverse(Found(tables, query, role), limit, Beginning).rows;
            where < |rows| && forall i :: 0 <= i < |rows| ==> (rows[i] == Key(at, id) <==> i == where)
  {
    hide Selects;
    var found := Found(tables, query, role);
    TraversalIsFaithful(found, limit, Beginning);
    var rows := Traverse(found, limit, Beginning).rows;
    forall i | 0 <= i < |found| ensures Key(at, id) in found[i] {
      assert found[i] == Keys(tables[i], query, role);
    }
    assert Key(at, id) in rows;
    where :| 0 <= where < |rows| && rows[where] == Key(at, id);
    hide Traverse;
  }
}
