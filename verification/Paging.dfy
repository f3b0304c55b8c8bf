/**
 * Keyset pages over (lower(title), id) and the walk that follows next_cursor.
 *
 * The database orders and compares by its own lower(); the cursor carries the title lowered by the application.
 * Both are functions of the title here, and nothing says they agree.
 */
module Paging {
  import opened Shared

  type Title = int

  datatype Row = Row(id: int, title: Title)

  datatype Key = Key(rank: int, id: int)

  datatype Collation = Collation(database: Title -> int, application: Title -> int)

  predicate Less(a: Key, b: Key) {
    a.rank < b.rank || (a.rank == b.rank && a.id < b.id)
  }

  function KeyOf(c: Collation, r: Row): Key {
    Key(c.database(r.title), r.id)
  }

  function CursorOf(c: Collation, r: Row): Key {
    Key(c.application(r.title), r.id)
  }

  /** A table is listed in index order; ids are unique, so keys are. */
  ghost predicate Sorted(c: Collation, rows: seq<Row>) {
    forall i, j | 0 <= i < j < |rows| :: Less(KeyOf(c, rows[i]), KeyOf(c, rows[j]))
  }

  predicate Beyond(c: Collation, cursor: Option<Key>, r: Row) {
    cursor.None? || Less(cursor.value, KeyOf(c, r))
  }

  /** WHERE filter AND (lower(title), id) > cursor ORDER BY lower(title), id */
  function Select(c: Collation, rows: seq<Row>, filter: Row -> bool, cursor: Option<Key>): seq<Row> {
    if rows == [] then []
    else (if filter(rows[0]) && Beyond(c, cursor, rows[0]) then [rows[0]] else []) + Select(c, rows[1..], filter, cursor)
  }

  /** LIMIT */
  function Page(c: Collation, rows: seq<Row>, filter: Row -> bool, cursor: Option<Key>, limit: nat): seq<Row> {
    var selected := Select(c, rows, filter, cursor);
    if |selected| < limit then selected else selected[..limit]
  }

  /** Only a full page offers a next one. */
  function NextCursor(c: Collation, items: seq<Row>, limit: nat): Option<Key> {
    if |items| == limit && items != [] then Some(CursorOf(c, items[|items| - 1])) else None
  }

  function CursorBefore(c: Collation, pages: seq<seq<Row>>, limit: nat, i: nat): Option<Key>
    requires i <= |pages|
  {
    if i == 0 then None else NextCursor(c, pages[i - 1], limit)
  }

  /** Pages fetched one after another, each from the table as it was then, each with the cursor of the one before. */
  ghost predicate Walk(c: Collation, tables: seq<seq<Row>>, filter: Row -> bool, limit: nat, pages: seq<seq<Row>>) {
    && |tables| == |pages|
    && (forall i | 0 <= i < |pages| :: pages[i] == Page(c, tables[i], filter, CursorBefore(c, pages, limit, i), limit))
    && (forall i | 0 < i < |pages| :: CursorBefore(c, pages, limit, i).Some?)
  }

  ghost predicate Ended(c: Collation, limit: nat, pages: seq<seq<Row>>) {
    pages != [] && CursorBefore(c, pages, limit, |pages|).None?
  }

  function Flatten(pages: seq<seq<Row>>): seq<Row> {
    if pages == [] then [] else Flatten(pages[..|pages| - 1]) + pages[|pages| - 1]
  }

  /** The cursor of this row divides the others as the row itself does. */
  ghost predicate Separates(c: Collation, rows: seq<Row>, filter: Row -> bool, r: Row) {
    forall y | y in rows && filter(y) :: Less(CursorOf(c, r), KeyOf(c, y)) <==> Less(KeyOf(c, r), KeyOf(c, y))
  }
}

module PagingProofs {
  import opened Shared
  import opened Paging

  lemma {:induction false} SelectMembers(c: Collation, rows: seq<Row>, filter: Row -> bool, cursor: Option<Key>, r: Row)
    ensures r in Select(c, rows, filter, cursor) <==> r in rows && filter(r) && Beyond(c, cursor, r)
  {
    if rows != [] {
      SelectMembers(c, rows[1..], filter, cursor, r);
      assert r in rows <==> r == rows[0] || r in rows[1..];
    }
  }

  lemma {:induction false} SelectSorted(c: Collation, rows: seq<Row>, filter: Row -> bool, cursor: Option<Key>)
    requires Sorted(c, rows)
    ensures Sorted(c, Select(c, rows, filter, cursor))
  {
    if rows != [] {
      var rest := Select(c, rows[1..], filter, cursor);
      SelectSorted(c, rows[1..], filter, cursor);
      forall i | 0 <= i < |rest| ensures Less(KeyOf(c, rows[0]), KeyOf(c, rest[i])) {
        SelectMembers(c, rows[1..], filter, cursor, rest[i]);
      }
    }
  }

  /** Selecting beyond a cursor is selecting from what was selected without one. */
  lemma {:induction false} SelectFromAll(c: Collation, rows: seq<Row>, filter: Row -> bool, cursor: Option<Key>)
    ensures Select(c, rows, filter, cursor) == Select(c, Select(c, rows, filter, None), filter, cursor)
  {
    if rows != [] {
      SelectFromAll(c, rows[1..], filter, cursor);
      var all := Select(c, rows, filter, None);
      if filter(rows[0]) {
        assert all[1..] == Select(c, rows[1..], filter, None);
      } else {
        assert all == Select(c, rows[1..], filter, None);
      }
    }
  }

  /** Among sorted rows that all pass the filter, a cursor just below row k selects rows k and on. */
  lemma {:induction false} SelectIsSuffix(c: Collation, all: seq<Row>, filter: Row -> bool, cursor: Option<Key>, k: nat)
    requires k <= |all| && (forall r | r in all :: filter(r))
    requires forall i | 0 <= i < |all| :: Beyond(c, cursor, all[i]) <==> k <= i
    ensures Select(c, all, filter, cursor) == all[k..]
  {
    if all != [] {
      assert forall i | 0 <= i < |all| - 1 :: all[1..][i] == all[i + 1];
      SelectIsSuffix(c, all[1..], filter, cursor, if k == 0 then 0 else k - 1);
    }
  }

  lemma {:induction false} FlattenTogether(pages: seq<seq<Row>>, last: seq<Row>)
    ensures Flatten(pages + [last]) == Flatten(pages) + last
  {
    assert (pages + [last])[..|pages|] == pages;
  }

  /** All the rows a walk over an unchanging table is to show. */
  function Matching(c: Collation, rows: seq<Row>, filter: Row -> bool): seq<Row> {
    Select(c, rows, filter, None)
  }

  /** If its cursor separates, what follows row k is exactly what the cursor selects. */
  lemma NextSelection(c: Collation, rows: seq<Row>, filter: Row -> bool, k: nat)
    requires Sorted(c, rows) && k < |Matching(c, rows, filter)|
    requires Separates(c, rows, filter, Matching(c, rows, filter)[k])
    ensures Select(c, rows, filter, Some(CursorOf(c, Matching(c, rows, filter)[k]))) == Matching(c, rows, filter)[k + 1..]
  {
    var all := Matching(c, rows, filter);
    var cursor := Some(CursorOf(c, all[k]));
    SelectSorted(c, rows, filter, None);
    SelectFromAll(c, rows, filter, cursor);
    forall r | r in all ensures filter(r) && r in rows {
      SelectMembers(c, rows, filter, None, r);
    }
    forall i | 0 <= i < |all| ensures Beyond(c, cursor, all[i]) <==> k + 1 <= i {
      assert all[i] in all;
      if i < k {
        assert Less(KeyOf(c, all[i]), KeyOf(c, all[k]));
      }
    }
    SelectIsSuffix(c, all, filter, cursor, k + 1);
  }

  /** A page is the next rows, at most limit of them. */
  lemma PageSlice(c: Collation, rows: seq<Row>, filter: Row -> bool, limit: nat, cursor: Option<Key>, all: seq<Row>, n: nat)
    requires n <= |all| && Select(c, rows, filter, cursor) == all[n..]
    ensures var page := Page(c, rows, filter, cursor, limit);
            && n + |page| <= |all| && page == all[n..n + |page|] && |page| <= limit
            && (|page| < limit ==> n + |page| == |all|)
  {
  }

  /** One page of an unchanging table, when what is left is row n and on. */
  lemma PageStep(c: Collation, rows: seq<Row>, filter: Row -> bool, limit: nat, cursor: Option<Key>, n: nat)
    requires Sorted(c, rows) && limit >= 1 && n <= |Matching(c, rows, filter)|
    requires Select(c, rows, filter, cursor) == Matching(c, rows, filter)[n..]
    requires EachSeparates(c, rows, filter)
    ensures var all, page := Matching(c, rows, filter), Page(c, rows, filter, cursor, limit);
            && n + |page| <= |all| && page == all[n..n + |page|]
            && match NextCursor(c, page, limit)
               case None => n + |page| == |all|
               case Some(next) => |page| == limit && Select(c, rows, filter, Some(next)) == all[n + limit..]
  {
    hide EachSeparates;
    hide Sorted;
    hide Select;
    hide Page;
    hide Matching;
    hide CursorOf;
    var all, page := Matching(c, rows, filter), Page(c, rows, filter, cursor, limit);
    PageSlice(c, rows, filter, limit, cursor, all, n);
    if |page| == limit {
      assert page[limit - 1] == all[n + limit - 1];
      NextSelectionAt(c, rows, filter, n + limit - 1);
    }
  }

  lemma NextSelectionAt(c: Collation, rows: seq<Row>, filter: Row -> bool, k: nat)
    requires Sorted(c, rows) && k < |Matching(c, rows, filter)| && EachSeparates(c, rows, filter)
    ensures Select(c, rows, filter, Some(CursorOf(c, Matching(c, rows, filter)[k]))) == Matching(c, rows, filter)[k + 1..]
  {
    assert Separates(c, rows, filter, Matching(c, rows, filter)[k]);
    hide Separates;
    hide Sorted;
    hide Select;
    NextSelection(c, rows, filter, k);
  }

  /** As many pages over the same table. */
  function Still(rows: seq<Row>, n: nat): seq<seq<Row>> {
    seq(n, _ => rows)
  }

  ghost predicate EachSeparates(c: Collation, rows: seq<Row>, filter: Row -> bool) {
    forall r | r in Matching(c, rows, filter) :: Separates(c, rows, filter, r)
  }

  /** These rows have been shown, and the cursor selects exactly the others. */
  ghost predicate Shown(c: Collation, rows: seq<Row>, filter: Row -> bool, shown: seq<Row>, cursor: Option<Key>, more: bool) {
    var all := Matching(c, rows, filter);
    && shown <= all
    && (if more then Select(c, rows, filter, cursor) == all[|shown|..] else shown == all)
  }

  /** Whether the walk has something to fetch after i pages. */
  predicate More(c: Collation, pages: seq<seq<Row>>, limit: nat, i: nat)
    requires i <= |pages|
  {
    i == 0 || CursorBefore(c, pages, limit, i).Some?
  }

  lemma WalkGoesOn(c: Collation, tables: seq<seq<Row>>, filter: Row -> bool, limit: nat, pages: seq<seq<Row>>, i: nat)
    requires i < |pages| && Walk(c, tables, filter, limit, pages)
    ensures |tables| == |pages| && pages[i] == Page(c, tables[i], filter, CursorBefore(c, pages, limit, i), limit)
    ensures More(c, pages, limit, i)
  {
  }

  lemma NothingShown(c: Collation, rows: seq<Row>, filter: Row -> bool)
    ensures Shown(c, rows, filter, Flatten([]), None, true)
  {
  }

  lemma {:induction false} WalkIsPrefix(c: Collation, rows: seq<Row>, filter: Row -> bool, limit: nat, pages: seq<seq<Row>>, i: nat)
    requires Sorted(c, rows) && limit >= 1 && i <= |pages| && Walk(c, Still(rows, |pages|), filter, limit, pages)
    requires EachSeparates(c, rows, filter)
    ensures Shown(c, rows, filter, Flatten(pages[..i]), CursorBefore(c, pages, limit, i), More(c, pages, limit, i))
  {
    hide Shown;
    hide Select;
    hide EachSeparates;
    hide Sorted;
    hide Page;
    hide Walk;
    hide Still;
    hide Flatten;
    if i == 0 {
      NothingShown(c, rows, filter);
      assert pages[..0] == [];
    } else {
      WalkIsPrefix(c, rows, filter, limit, pages, i - 1);
      WalkGoesOn(c, Still(rows, |pages|), filter, limit, pages, i - 1);
      assert pages[..i] == pages[..i - 1] + [pages[i - 1]];
      FlattenTogether(pages[..i - 1], pages[i - 1]);
      ShowPage(c, rows, filter, limit, pages, i - 1, Flatten(pages[..i - 1]));
    }
  }

  lemma ShowPage(c: Collation, rows: seq<Row>, filter: Row -> bool, limit: nat, pages: seq<seq<Row>>, i: nat, shown: seq<Row>)
    requires Sorted(c, rows) && limit >= 1 && i < |pages| && Walk(c, Still(rows, |pages|), filter, limit, pages)
    requires EachSeparates(c, rows, filter)
    requires Shown(c, rows, filter, shown, CursorBefore(c, pages, limit, i), true)
    ensures Shown(c, rows, filter, shown + pages[i], CursorBefore(c, pages, limit, i + 1), More(c, pages, limit, i + 1))
  {
    PageStepAt(c, rows, filter, limit, pages, i, |shown|);
    hide Select;
    hide Sorted;
    hide Walk;
    hide EachSeparates;
    var all := Matching(c, rows, filter);
    hide Matching;
    assert shown + pages[i] == all[..|shown + pages[i]|];
  }

  /** A walk that goes on has shown full pages so far. */
  lemma {:induction false} FullPages(c: Collation, pages: seq<seq<Row>>, limit: nat, i: nat)
    requires i <= |pages| && forall j | 0 < j <= i :: CursorBefore(c, pages, limit, j).Some?
    ensures |Flatten(pages[..i])| == i * limit
  {
    if i > 0 {
      FullPages(c, pages, limit, i - 1);
      assert pages[..i] == pages[..i - 1] + [pages[i - 1]];
      FlattenTogether(pages[..i - 1], pages[i - 1]);
      assert CursorBefore(c, pages, limit, i).Some?;
      assert i * limit == (i - 1) * limit + limit;
    }
  }

  lemma PageStepAt(c: Collation, rows: seq<Row>, filter: Row -> bool, limit: nat, pages: seq<seq<Row>>, i: nat, n: nat)
    requires Sorted(c, rows) && limit >= 1 && i < |pages| && Walk(c, Still(rows, |pages|), filter, limit, pages)
    requires EachSeparates(c, rows, filter) && n <= |Matching(c, rows, filter)|
    requires Select(c, rows, filter, CursorBefore(c, pages, limit, i)) == Matching(c, rows, filter)[n..]
    ensures var all, page := Matching(c, rows, filter), pages[i];
            && n + |page| <= |all| && page == all[n..n + |page|]
            && match CursorBefore(c, pages, limit, i + 1)
               case None => n + |page| == |all|
               case Some(next) => |page| == limit && Select(c, rows, filter, Some(next)) == all[n + limit..]
  {
    PageStep(c, rows, filter, limit, CursorBefore(c, pages, limit, i), n);
    assert pages[i] == Page(c, Still(rows, |pages|)[i], filter, CursorBefore(c, pages, limit, i), limit);
  }

  /**
   * Following next_cursor over an unchanging table shows the filtered table in order, each row once, and nothing
   * else: any walk is a beginning of it, a walk that has ended is all of it, and no walk can be longer than it.
   */
  lemma WalkShowsEverythingOnce(c: Collation, rows: seq<Row>, filter: Row -> bool, limit: nat, pages: seq<seq<Row>>)
    requires Sorted(c, rows) && limit >= 1 && Walk(c, Still(rows, |pages|), filter, limit, pages)
    requires EachSeparates(c, rows, filter)
    ensures Flatten(pages) <= Matching(c, rows, filter)
    ensures Ended(c, limit, pages) ==> Flatten(pages) == Matching(c, rows, filter)
    ensures pages != [] ==> (|pages| - 1) * limit <= |Matching(c, rows, filter)|
  {
    WalkIsPrefix(c, rows, filter, limit, pages, |pages|);
    assert pages[..|pages|] == pages;
    if |pages| > 0 {
      WalkIsPrefix(c, rows, filter, limit, pages, |pages| - 1);
      FullPages(c, pages, limit, |pages| - 1);
    }
  }

  /** Keys are in one strict total order: first by rank, then by id. */
  lemma KeysAreInOrder(a: Key, b: Key, c: Key)
    ensures !Less(a, a) && (Less(a, b) || a == b || Less(b, a)) && (Less(a, b) && Less(b, c) ==> Less(a, c))
    ensures (a.rank < b.rank ==> Less(a, b)) && (a.rank == b.rank ==> (Less(a, b) <==> a.id < b.id))
  {
  }

  /**
   * A finished walk, read off the rows: it lists exactly the rows of the table that pass the filter, by title as the
   * database lowers it and then by id, in pages of exactly the limit but the last.
   */
  lemma FinishedWalkListsTheTable(c: Collation, rows: seq<Row>, filter: Row -> bool, limit: nat, pages: seq<seq<Row>>)
    requires Sorted(c, rows) && limit >= 1 && Walk(c, Still(rows, |pages|), filter, limit, pages)
    requires EachSeparates(c, rows, filter) && Ended(c, limit, pages)
    ensures forall r :: r in Flatten(pages) <==> r in rows && filter(r)
    ensures forall i, j | 0 <= i < j < |Flatten(pages)| ::
              var a, b := Flatten(pages)[i], Flatten(pages)[j];
              c.database(a.title) < c.database(b.title) || (c.database(a.title) == c.database(b.title) && a.id < b.id)
    ensures forall i | 0 <= i < |pages| :: |pages[i]| <= limit && (i < |pages| - 1 ==> |pages[i]| == limit)
  {
    hide Select;
    hide Sorted;
    hide EachSeparates;
    hide Walk;
    hide Flatten;
    WalkShowsEverythingOnce(c, rows, filter, limit, pages);
    MatchingOnRows(c, rows, filter);
    PagesAreFull(c, Still(rows, |pages|), filter, limit, pages);
  }

  /** The rows to show: those of the table that pass the filter, in order. */
  lemma MatchingOnRows(c: Collation, rows: seq<Row>, filter: Row -> bool)
    requires Sorted(c, rows)
    ensures forall r :: r in Matching(c, rows, filter) <==> r in rows && filter(r)
    ensures forall i, j | 0 <= i < j < |Matching(c, rows, filter)| ::
              var a, b := Matching(c, rows, filter)[i], Matching(c, rows, filter)[j];
              c.database(a.title) < c.database(b.title) || (c.database(a.title) == c.database(b.title) && a.id < b.id)
  {
    SelectSorted(c, rows, filter, None);
    forall r ensures r in Matching(c, rows, filter) <==> r in rows && filter(r) {
      SelectMembers(c, rows, filter, None, r);
    }
    hide Select;
    var shown := Select(c, rows, filter, None);
    forall i, j | 0 <= i < j < |shown|
      ensures c.database(shown[i].title) < c.database(shown[j].title)
              || (c.database(shown[i].title) == c.database(shown[j].title) && shown[i].id < shown[j].id)
    {
      assert Less(KeyOf(c, shown[i]), KeyOf(c, shown[j]));
    }
  }

  lemma PagesAreFull(c: Collation, tables: seq<seq<Row>>, filter: Row -> bool, limit: nat, pages: seq<seq<Row>>)
    requires Walk(c, tables, filter, limit, pages)
    ensures forall i | 0 <= i < |pages| :: |pages[i]| <= limit && (i < |pages| - 1 ==> |pages[i]| == limit)
  {
    hide Select;
    forall i | 0 <= i < |pages| ensures |pages[i]| <= limit && (i < |pages| - 1 ==> |pages[i]| == limit) {
      assert i + 1 < |pages| ==> CursorBefore(c, pages, limit, i + 1).Some?;
    }
  }

  ghost predicate Faithful(c: Collation, rows: seq<Row>, filter: Row -> bool, limit: nat, pages: seq<seq<Row>>) {
    Flatten(pages) <= Matching(c, rows, filter) && (Ended(c, limit, pages) ==> Flatten(pages) == Matching(c, rows, filter))
  }

  /**
   * Exactly when: every walk of every page size is right if and only if each row's cursor separates the rows as the
   * database's own order does.
   */
  lemma PagingIsExact(c: Collation, rows: seq<Row>, filter: Row -> bool)
    requires Sorted(c, rows)
    ensures EachSeparates(c, rows, filter) <==>
              forall limit: nat, pages | limit >= 1 && Walk(c, Still(rows, |pages|), filter, limit, pages) ::
                Faithful(c, rows, filter, limit, pages)
  {
    if EachSeparates(c, rows, filter) {
      forall limit: nat, pages | limit >= 1 && Walk(c, Still(rows, |pages|), filter, limit, pages)
        ensures Faithful(c, rows, filter, limit, pages)
      {
        WalkShowsEverythingOnce(c, rows, filter, limit, pages);
      }
    } else {
      var all := Matching(c, rows, filter);
      var r :| r in all && !Separates(c, rows, filter, r);
      var k :| 0 <= k < |all| && all[k] == r;
      var pages := BadWalk(c, rows, filter, k);
    }
  }

  /** The cursor selects a suffix of the matching rows; if it does not separate, it is not the right one. */
  lemma CursorSuffix(c: Collation, all: seq<Row>, cursor: Key) returns (j: nat)
    requires Sorted(c, all)
    ensures j <= |all| && forall i | 0 <= i < |all| :: Beyond(c, Some(cursor), all[i]) <==> j <= i
  {
    j := 0;
    while j < |all| && !Beyond(c, Some(cursor), all[j])
      invariant j <= |all| && forall i | 0 <= i < j :: !Beyond(c, Some(cursor), all[i])
    {
      j := j + 1;
    }
    forall i | j <= i < |all| ensures Beyond(c, Some(cursor), all[i]) {
      if j < i {
        assert Less(KeyOf(c, all[j]), KeyOf(c, all[i]));
      }
    }
  }

  /** A page ending at a row whose cursor does not separate, and the page after it. */
  lemma BadWalk(c: Collation, rows: seq<Row>, filter: Row -> bool, k: nat) returns (pages: seq<seq<Row>>)
    requires Sorted(c, rows) && k < |Matching(c, rows, filter)|
    requires !Separates(c, rows, filter, Matching(c, rows, filter)[k])
    ensures Walk(c, Still(rows, |pages|), filter, k + 1, pages) && !Faithful(c, rows, filter, k + 1, pages)
  {
    var all := Matching(c, rows, filter);
    var cursor := CursorOf(c, all[k]);
    var j := WrongSelection(c, rows, filter, k);
    var first, second := all[..k + 1], Page(c, rows, filter, Some(cursor), k + 1);
    pages := [first, second];
    TwoPages(c, rows, filter, k + 1, first, cursor);
    if second != [] {
      SortedDistinct(c, all, if j < k + 1 then j else k + 1, if j < k + 1 then k + 1 else j);
    }
    NotAPrefix(all, first + second, k + 1);
  }

  /** Something other than the next row comes next, or nothing does although the end is not reached. */
  lemma NotAPrefix(all: seq<Row>, shown: seq<Row>, n: nat)
    requires n <= |all| && n <= |shown| && (n < |shown| && n < |all| ==> shown[n] != all[n])
    ensures |shown| > n ==> !(shown <= all)
    ensures shown <= all ==> |shown| == n
  {
  }

  /** What the cursor of row k selects, when it does not separate: a suffix, but not the one after row k. */
  lemma WrongSelection(c: Collation, rows: seq<Row>, filter: Row -> bool, k: nat) returns (j: nat)
    requires Sorted(c, rows) && k < |Matching(c, rows, filter)|
    requires !Separates(c, rows, filter, Matching(c, rows, filter)[k])
    ensures j != k + 1 && j <= |Matching(c, rows, filter)| && Sorted(c, Matching(c, rows, filter))
    ensures Select(c, rows, filter, Some(CursorOf(c, Matching(c, rows, filter)[k]))) == Matching(c, rows, filter)[j..]
  {
    var all := Matching(c, rows, filter);
    var cursor := CursorOf(c, all[k]);
    SelectSorted(c, rows, filter, None);
    j := CursorSuffix(c, all, cursor);
    SelectFromAll(c, rows, filter, Some(cursor));
    forall r | r in all ensures filter(r) && r in rows {
      SelectMembers(c, rows, filter, None, r);
    }
    SelectIsSuffix(c, all, filter, Some(cursor), j);
    WrongSuffix(c, rows, filter, k, j);
  }

  /** A full first page and the page its cursor leads to. */
  lemma TwoPages(c: Collation, rows: seq<Row>, filter: Row -> bool, limit: nat, first: seq<Row>, cursor: Key)
    requires limit >= 1 && first == Page(c, rows, filter, None, limit) && NextCursor(c, first, limit) == Some(cursor)
    ensures var second := Page(c, rows, filter, Some(cursor), limit); var pages := [first, second];
            && Walk(c, Still(rows, |pages|), filter, limit, pages) && Flatten(pages) == first + second
            && (second == [] ==> Ended(c, limit, pages))
  {
    var second := Page(c, rows, filter, Some(cursor), limit);
    var pages := [first, second];
    assert CursorBefore(c, pages, limit, 1) == Some(cursor) && CursorBefore(c, pages, limit, 0) == None;
    assert Still(rows, 2)[0] == rows && Still(rows, 2)[1] == rows;
    FlattenTogether([], first);
    FlattenTogether([first], second);
    assert [] + [first] == [first] && [first] + [second] == pages && Flatten([]) == [];
  }

  lemma SortedDistinct(c: Collation, all: seq<Row>, i: nat, j: nat)
    requires Sorted(c, all) && i < j
    ensures j < |all| ==> all[i] != all[j]
  {
  }

  lemma WrongSuffix(c: Collation, rows: seq<Row>, filter: Row -> bool, k: nat, j: nat)
    requires var all := Matching(c, rows, filter);
             && Sorted(c, all) && k < |all| && j <= |all| && !Separates(c, rows, filter, all[k])
             && forall i | 0 <= i < |all| :: Beyond(c, Some(CursorOf(c, all[k])), all[i]) <==> j <= i
    ensures j != k + 1
  {
    var all := Matching(c, rows, filter);
    var y :| y in rows && filter(y) && !(Less(CursorOf(c, all[k]), KeyOf(c, y)) <==> Less(KeyOf(c, all[k]), KeyOf(c, y)));
    SelectMembers(c, rows, filter, None, y);
    var i :| 0 <= i < |all| && all[i] == y;
    if i < k {
      assert Less(KeyOf(c, all[i]), KeyOf(c, all[k]));
    } else if k < i {
      assert Less(KeyOf(c, all[k]), KeyOf(c, all[i]));
    }
  }

  /** A skipped row: the application lowers a title past a title the database puts after it. */
  lemma DisagreementSkipsARow()
    ensures var c := Collation(t => t, t => 10 * t);
            var rows := [Row(1, 1), Row(2, 2)];
            && Walk(c, Still(rows, 2), _ => true, 1, [[Row(1, 1)], []]) && Ended(c, 1, [[Row(1, 1)], []])
            && Row(2, 2) !in Flatten([[Row(1, 1)], []])
  {
    var c := Collation(t => t, t => 10 * t);
    var rows, pages := [Row(1, 1), Row(2, 2)], [[Row(1, 1)], []];
    var filter: Row -> bool := _ => true;
    assert rows[1..] == [Row(2, 2)] && rows[1..][1..] == [];
    assert Page(c, rows, filter, None, 1) == pages[0];
    assert CursorBefore(c, pages, 1, 1) == Some(Key(10, 1));
    assert Page(c, rows, filter, Some(Key(10, 1)), 1) == pages[1];
    assert pages[..1] == [[Row(1, 1)]] && pages[..1][..0] == [];
  }
}
