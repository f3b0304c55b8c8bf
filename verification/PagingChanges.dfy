/** Walking a table while rows come and go between the pages. */
module PagingChanges {
  import opened Shared
  import opened Paging
  import opened PagingProofs

  ghost predicate SortedTables(c: Collation, tables: seq<seq<Row>>) {
    forall i | 0 <= i < |tables| :: Sorted(c, tables[i])
  }

  /** A row of the listing that is there when some page is fetched. */
  ghost predicate Occurs(tables: seq<seq<Row>>, filter: Row -> bool, r: Row) {
    filter(r) && exists i | 0 <= i < |tables| :: r in tables[i]
  }

  /** A row of the listing that is there whenever a page is fetched. */
  ghost predicate Present(tables: seq<seq<Row>>, filter: Row -> bool, r: Row) {
    filter(r) && forall i | 0 <= i < |tables| :: r in tables[i]
  }

  /** The cursor of this row divides the rows that ever occur as the row itself does. */
  ghost predicate Divides(c: Collation, tables: seq<seq<Row>>, filter: Row -> bool, r: Row) {
    forall y | Occurs(tables, filter, y) :: Less(CursorOf(c, r), KeyOf(c, y)) <==> Less(KeyOf(c, r), KeyOf(c, y))
  }

  ghost predicate EachDivides(c: Collation, tables: seq<seq<Row>>, filter: Row -> bool) {
    forall r | Occurs(tables, filter, r) :: Divides(c, tables, filter, r)
  }

  ghost predicate After(c: Collation, shown: seq<Row>, r: Row) {
    forall x | x in shown :: Less(KeyOf(c, x), KeyOf(c, r))
  }

  function LastCursor(c: Collation, shown: seq<Row>): Option<Key> {
    if shown == [] then None else Some(CursorOf(c, shown[|shown| - 1]))
  }

  /** Whatever the cursor of the last row shown selects lies after everything shown, and the other way round. */
  lemma BeyondIsAfter(c: Collation, tables: seq<seq<Row>>, filter: Row -> bool, shown: seq<Row>, y: Row)
    requires EachDivides(c, tables, filter) && Sorted(c, shown) && Occurs(tables, filter, y)
    requires forall x | x in shown :: Occurs(tables, filter, x)
    ensures Beyond(c, LastCursor(c, shown), y) <==> After(c, shown, y)
  {
    if shown != [] {
      var last := shown[|shown| - 1];
      assert last in shown && Divides(c, tables, filter, last);
      if Less(KeyOf(c, last), KeyOf(c, y)) {
        forall x | x in shown ensures Less(KeyOf(c, x), KeyOf(c, y)) {
          var i :| 0 <= i < |shown| && shown[i] == x;
        }
      }
    }
  }

  lemma AfterThePage(c: Collation, selected: seq<Row>, page: seq<Row>, r: Row)
    requires Sorted(c, selected) && page <= selected && r in selected && r !in page
    ensures |page| < |selected| && After(c, page, r)
  {
    var k :| 0 <= k < |selected| && selected[k] == r;
    assert forall m | 0 <= m < |page| :: selected[m] in page;
    forall x | x in page ensures Less(KeyOf(c, x), KeyOf(c, r)) {
      var m :| 0 <= m < |page| && page[m] == x;
      assert selected[m] == x;
    }
  }

  /** The page beyond a cursor: sorted, selected, and complete up to its last row. */
  lemma PageContents(c: Collation, rows: seq<Row>, filter: Row -> bool, cursor: Option<Key>, limit: nat)
    requires Sorted(c, rows) && limit >= 1
    ensures var page := Page(c, rows, filter, cursor, limit);
            && Sorted(c, page)
            && (forall x | x in page :: x in rows && filter(x) && Beyond(c, cursor, x))
            && (NextCursor(c, page, limit).Some? ==> NextCursor(c, page, limit) == LastCursor(c, page))
            && (forall r | r in rows && filter(r) && Beyond(c, cursor, r) && r !in page ::
                  NextCursor(c, page, limit).Some? && After(c, page, r))
  {
    var selected, page := Select(c, rows, filter, cursor), Page(c, rows, filter, cursor, limit);
    SelectSorted(c, rows, filter, cursor);
    assert page == selected[..|page|];
    forall x | x in page ensures x in rows && filter(x) && Beyond(c, cursor, x) {
      SelectMembers(c, rows, filter, cursor, x);
    }
    forall r | r in rows && filter(r) && Beyond(c, cursor, r) && r !in page
      ensures NextCursor(c, page, limit).Some? && After(c, page, r)
    {
      SelectMembers(c, rows, filter, cursor, r);
      AfterThePage(c, selected, page, r);
    }
  }

  /** Everything shown is in order and occurs; every present row not shown lies after it all and is still to come. */
  ghost predicate Progress(c: Collation, tables: seq<seq<Row>>, filter: Row -> bool, shown: seq<Row>, cursor: Option<Key>,
                           more: bool) {
    && Sorted(c, shown)
    && (forall x | x in shown :: Occurs(tables, filter, x))
    && (more ==> cursor == LastCursor(c, shown))
    && (forall r | Present(tables, filter, r) && r !in shown :: more && After(c, shown, r))
  }

  lemma SortedTogether(c: Collation, a: seq<Row>, b: seq<Row>)
    requires Sorted(c, a) && Sorted(c, b) && forall y | y in b :: After(c, a, y)
    ensures Sorted(c, a + b)
  {
    forall i, j | 0 <= i < j < |a + b| ensures Less(KeyOf(c, (a + b)[i]), KeyOf(c, (a + b)[j])) {
      if i < |a| <= j {
        assert a[i] in a && b[j - |a|] in b;
      }
    }
  }

  lemma NextPage(c: Collation, tables: seq<seq<Row>>, filter: Row -> bool, limit: nat, i: nat, shown: seq<Row>, cursor: Option<Key>)
    requires EachDivides(c, tables, filter) && SortedTables(c, tables) && limit >= 1 && i < |tables|
    requires Progress(c, tables, filter, shown, cursor, true)
    ensures var page := Page(c, tables[i], filter, cursor, limit); var next := NextCursor(c, page, limit);
            Progress(c, tables, filter, shown + page, next, next.Some?)
  {
    var page := Page(c, tables[i], filter, cursor, limit);
    var next := NextCursor(c, page, limit);
    PageContents(c, tables[i], filter, cursor, limit);
    forall y | y in page ensures Occurs(tables, filter, y) && After(c, shown, y) {
      BeyondIsAfter(c, tables, filter, shown, y);
    }
    SortedTogether(c, shown, page);
    forall r | Present(tables, filter, r) && r !in shown + page ensures next.Some? && After(c, shown + page, r) {
      assert r in tables[i] && Occurs(tables, filter, r);
      BeyondIsAfter(c, tables, filter, shown, r);
    }
  }

  lemma ProgressAt(c: Collation, tables: seq<seq<Row>>, filter: Row -> bool, limit: nat, pages: seq<seq<Row>>, i: nat,
                   shown: seq<Row>)
    requires EachDivides(c, tables, filter) && SortedTables(c, tables) && limit >= 1
    requires Walk(c, tables, filter, limit, pages) && i < |pages|
    requires Progress(c, tables, filter, shown, CursorBefore(c, pages, limit, i), true)
    ensures Progress(c, tables, filter, shown + pages[i], CursorBefore(c, pages, limit, i + 1), More(c, pages, limit, i + 1))
  {
    WalkGoesOn(c, tables, filter, limit, pages, i);
    hide Walk;
    hide EachDivides;
    NextPage(c, tables, filter, limit, i, shown, CursorBefore(c, pages, limit, i));
  }

  lemma NothingYet(c: Collation, tables: seq<seq<Row>>, filter: Row -> bool)
    ensures Progress(c, tables, filter, Flatten([]), None, true)
  {
  }

  lemma {:induction false} WalkProgress(c: Collation, tables: seq<seq<Row>>, filter: Row -> bool, limit: nat,
                                        pages: seq<seq<Row>>, i: nat)
    requires EachDivides(c, tables, filter) && SortedTables(c, tables) && limit >= 1
    requires Walk(c, tables, filter, limit, pages) && i <= |pages|
    ensures Progress(c, tables, filter, Flatten(pages[..i]), CursorBefore(c, pages, limit, i), More(c, pages, limit, i))
  {
    hide Walk;
    hide Flatten;
    hide Page;
    hide Progress;
    hide SortedTables;
    hide EachDivides;
    if i == 0 {
      NothingYet(c, tables, filter);
      assert pages[..0] == [];
    } else {
      WalkProgress(c, tables, filter, limit, pages, i - 1);
      WalkGoesOn(c, tables, filter, limit, pages, i - 1);
      assert pages[..i] == pages[..i - 1] + [pages[i - 1]];
      FlattenTogether(pages[..i - 1], pages[i - 1]);
      ProgressAt(c, tables, filter, limit, pages, i - 1, Flatten(pages[..i - 1]));
    }
  }

  /**
   * Nothing is shown twice, out of order or out of nowhere; a row that was there throughout is either shown or lies
   * after everything shown so far; and a finished walk has shown it.
   */
  ghost predicate Orderly(c: Collation, tables: seq<seq<Row>>, filter: Row -> bool, limit: nat, pages: seq<seq<Row>>) {
    var shown := Flatten(pages);
    && Sorted(c, shown)
    && (forall x | x in shown :: Occurs(tables, filter, x))
    && (forall r | Present(tables, filter, r) && r !in shown :: After(c, shown, r))
    && (Ended(c, limit, pages) ==> forall r | Present(tables, filter, r) :: r in shown)
  }

  /** Rows may be inserted and removed between pages: the walk is orderly if each cursor divides the rows that occur. */
  lemma EachRowOnce(c: Collation, tables: seq<seq<Row>>, filter: Row -> bool, limit: nat, pages: seq<seq<Row>>)
    requires EachDivides(c, tables, filter) && SortedTables(c, tables) && limit >= 1 && Walk(c, tables, filter, limit, pages)
    ensures Orderly(c, tables, filter, limit, pages)
    ensures forall i, j | 0 <= i < j < |Flatten(pages)| :: Flatten(pages)[i] != Flatten(pages)[j]
  {
    WalkProgress(c, tables, filter, limit, pages, |pages|);
    assert pages[..|pages|] == pages;
    forall i, j | 0 <= i < j < |Flatten(pages)| ensures Flatten(pages)[i] != Flatten(pages)[j] {
      assert Less(KeyOf(c, Flatten(pages)[i]), KeyOf(c, Flatten(pages)[j]));
    }
  }

  // ---- And only if ----

  ghost predicate Within(tables: seq<seq<Row>>, all: seq<Row>) {
    forall i, r | 0 <= i < |tables| && r in tables[i] :: r in all
  }

  /** Sorted rows taken from a sorted list, with nothing left out before any of them, are its beginning. */
  lemma {:induction false} SortedPrefix(c: Collation, shown: seq<Row>, all: seq<Row>)
    requires Sorted(c, shown) && Sorted(c, all) && (forall x | x in shown :: x in all)
    requires forall r | r in all && r !in shown :: After(c, shown, r)
    ensures shown <= all
    decreases |shown|
  {
    if shown != [] {
      assert shown[0] in shown && shown[0] in all && all[0] in all;
      var j :| 0 <= j < |all| && all[j] == shown[0];
      assert j == 0;
      forall x | x in shown[1..] ensures x in all[1..] {
        assert x in all && x != all[0];
      }
      assert forall r | r in all[1..] && r !in shown[1..] :: r in all && r !in shown;
      SortedPrefix(c, shown[1..], all[1..]);
    }
  }

  lemma OrderlyIsFaithful(c: Collation, rows: seq<Row>, filter: Row -> bool, limit: nat, pages: seq<seq<Row>>)
    requires Sorted(c, rows) && Orderly(c, Still(rows, |pages|), filter, limit, pages)
    ensures Faithful(c, rows, filter, limit, pages)
  {
    var shown, all, tables := Flatten(pages), Matching(c, rows, filter), Still(rows, |pages|);
    if pages == [] {
      return;
    }
    SelectSorted(c, rows, filter, None);
    forall r ensures r in all <==> Present(tables, filter, r) {
      SelectMembers(c, rows, filter, None, r);
      assert tables[0] == rows;
    }
    assert forall x | x in shown :: x in all;
    SortedPrefix(c, shown, all);
    if |shown| < |all| {
      NotBefore(c, all, |shown|);
      assert all[..|shown|] == shown && all[|shown|] in all;
    }
  }

  lemma NotBefore(c: Collation, all: seq<Row>, n: nat)
    requires Sorted(c, all) && n < |all|
    ensures all[n] !in all[..n]
  {
    forall i | 0 <= i < n ensures all[i] != all[n] {
      assert Less(KeyOf(c, all[i]), KeyOf(c, all[n]));
    }
  }

  /**
   * Exactly: over all tables whose rows come from a given list, all their changes and all page sizes, every walk is
   * orderly if and only if each row's cursor separates the others as the database's own order does.
   */
  lemma ChangesAreExact(c: Collation, all: seq<Row>, filter: Row -> bool)
    requires Sorted(c, all)
    ensures EachSeparates(c, all, filter) <==>
              forall limit: nat, tables, pages |
                limit >= 1 && SortedTables(c, tables) && Within(tables, all) && Walk(c, tables, filter, limit, pages) ::
                Orderly(c, tables, filter, limit, pages)
  {
    if EachSeparates(c, all, filter) {
      forall limit: nat, tables, pages |
        limit >= 1 && SortedTables(c, tables) && Within(tables, all) && Walk(c, tables, filter, limit, pages)
        ensures Orderly(c, tables, filter, limit, pages)
      {
        SeparatesDivides(c, all, filter, tables);
        EachRowOnce(c, tables, filter, limit, pages);
      }
    } else {
      PagingIsExact(c, all, filter);
      var limit: nat, pages :| limit >= 1 && Walk(c, Still(all, |pages|), filter, limit, pages) && !Faithful(c, all, filter, limit, pages);
      if Orderly(c, Still(all, |pages|), filter, limit, pages) {
        OrderlyIsFaithful(c, all, filter, limit, pages);
      }
      assert SortedTables(c, Still(all, |pages|)) && Within(Still(all, |pages|), all);
    }
  }

  lemma SeparatesDivides(c: Collation, all: seq<Row>, filter: Row -> bool, tables: seq<seq<Row>>)
    requires EachSeparates(c, all, filter) && Within(tables, all)
    ensures EachDivides(c, tables, filter)
  {
    forall r | Occurs(tables, filter, r) ensures Divides(c, tables, filter, r) {
      SelectMembers(c, all, filter, None, r);
      assert Separates(c, all, filter, r);
    }
  }
}
