/**
 Keyset pages over a table that changes between calls, and the walk a client makes by
 following cursors from the first page to the last.
 */
module Paging {
  import opened Wrappers

  /**
   The sort key behind every listing: live sessions use all three parts, retained sessions and
   requests a constant first part; a row id is a one-element `id`.
   */
  datatype Key = Key(group: int, time: real, id: seq<int>)

  predicate IdLess(a: seq<int>, b: seq<int>) {
    b != [] && (a == [] || a[0] < b[0] || (a[0] == b[0] && IdLess(a[1..], b[1..])))
  }

  predicate Less(a: Key, b: Key) {
    || a.group < b.group
    || (a.group == b.group && a.time < b.time)
    || (a.group == b.group && a.time == b.time && IdLess(a.id, b.id))
  }

  lemma {:induction false} IdLessTotal(a: seq<int>, b: seq<int>)
    ensures !(IdLess(a, b) && IdLess(b, a))
    ensures a != b ==> IdLess(a, b) || IdLess(b, a)
    ensures !IdLess(a, a)
  {
    if a != [] {
      if b != [] {
        IdLessTotal(a[1..], b[1..]);
        assert a == [a[0]] + a[1..] && b == [b[0]] + b[1..];
      } else {
        IdLessTotal(a[1..], []);
      }
    }
  }

  lemma {:induction false} IdLessTransitive(a: seq<int>, b: seq<int>, c: seq<int>)
    requires IdLess(a, b) && IdLess(b, c)
    ensures IdLess(a, c)
  {
    if a != [] && a[0] == b[0] == c[0] {
      IdLessTransitive(a[1..], b[1..], c[1..]);
    }
  }

  /** Keys are totally ordered: no two rows tie. */
  lemma LessTotal(a: Key, b: Key)
    ensures !(Less(a, b) && Less(b, a)) && !Less(a, a)
    ensures a != b ==> Less(a, b) || Less(b, a)
  {
    IdLessTotal(a.id, b.id);
    IdLessTotal(a.id, a.id);
  }

  lemma LessTransitive(a: Key, b: Key, c: Key)
    requires Less(a, b) && Less(b, c)
    ensures Less(a, c)
  {
    if IdLess(a.id, b.id) && IdLess(b.id, c.id) {
      IdLessTransitive(a.id, b.id, c.id);
    }
  }

  /** The ids agree up to a position at which the first has ended, or has the smaller element. */
  ghost predicate IdBelow(a: seq<int>, b: seq<int>) {
    exists k :: 0 <= k <= |a| && k < |b| && a[..k] == b[..k] && (k == |a| || a[k] < b[k])
  }

  lemma SameHead(a: seq<int>, b: seq<int>)
    ensures forall k :: 0 < k <= |a| && k <= |b| && a[..k] == b[..k] ==> a[0] == b[0]
  {
    forall k | 0 < k <= |a| && k <= |b| && a[..k] == b[..k] ensures a[0] == b[0] {
      assert a[..k][0] == b[..k][0];
    }
  }

  lemma {:induction false} IdLessIff(a: seq<int>, b: seq<int>)
    ensures IdLess(a, b) <==> IdBelow(a, b)
  {
    if a == [] {
      if b != [] {
        assert a[..0] == b[..0];
      }
    } else if b != [] && a[0] == b[0] {
      IdLessIff(a[1..], b[1..]);
      if k :| 0 <= k <= |a| && k < |b| && a[..k] == b[..k] && (k == |a| || a[k] < b[k]) {
        assert a[1..][..k - 1] == a[..k][1..] == b[..k][1..] == b[1..][..k - 1];
      }
      if k :| 0 <= k <= |a| - 1 && k < |b| - 1 && a[1..][..k] == b[1..][..k] && (k == |a| - 1 || a[1..][k] < b[1..][k]) {
        assert a[..k + 1] == [a[0]] + a[1..][..k] && b[..k + 1] == [b[0]] + b[1..][..k];
      }
    } else if b != [] {
      SameHead(a, b);
      if IdLess(a, b) {
        assert a[..0] == b[..0];
      }
    }
  }

  /** The greater group first, within it the later time, and at one time the greater id. */
  ghost predicate NewestFirst(rows: seq<Key>) {
    forall i, j :: 0 <= i < j < |rows| ==>
      || rows[i].group > rows[j].group
      || (rows[i].group == rows[j].group && rows[i].time > rows[j].time)
      || (rows[i].group == rows[j].group && rows[i].time == rows[j].time && IdBelow(rows[j].id, rows[i].id))
  }

  lemma DescendingIff(rows: seq<Key>)
    ensures Descending(rows) <==> NewestFirst(rows)
  {
    forall i, j | 0 <= i < j < |rows| ensures IdLess(rows[j].id, rows[i].id) <==> IdBelow(rows[j].id, rows[i].id) {
      IdLessIff(rows[j].id, rows[i].id);
    }
  }

  // One page

  predicate Before(key: Key, before: Option<Key>) {
    before.Some? ==> Less(key, before.value)
  }

  function Eligible(table: set<Key>, before: Option<Key>): set<Key> {
    set key | key in table && Before(key, before)
  }

  ghost predicate Descending(rows: seq<Key>) {
    forall i, j :: 0 <= i < j < |rows| ==> Less(rows[j], rows[i])
  }

  ghost predicate IsGreatest(keys: set<Key>, top: Key) {
    top in keys && forall key :: key in keys && key != top ==> Less(key, top)
  }

  lemma {:induction false} GreatestExists(keys: set<Key>)
    requires keys != {}
    ensures exists top :: IsGreatest(keys, top)
  {
    var key :| key in keys;
    if keys == {key} {
      assert IsGreatest(keys, key);
    } else {
      GreatestExists(keys - {key});
      var top :| IsGreatest(keys - {key}, top);
      LessTotal(key, top);
      if Less(top, key) {
        forall other | other in keys && other != key ensures Less(other, key) {
          if other != top {
            LessTransitive(other, top, key);
          }
        }
        assert IsGreatest(keys, key);
      } else {
        assert IsGreatest(keys, top);
      }
    }
  }

  /** The rows in descending order, as ORDER BY ... DESC or a reversed sort returns them. */
  ghost function Ordered(keys: set<Key>): (rows: seq<Key>)
    ensures |rows| == |keys| && forall key :: key in keys <==> key in rows
  {
    if keys == {} then []
    else
      GreatestExists(keys);
      var top :| IsGreatest(keys, top);
      [top] + Ordered(keys - {top})
  }

  lemma {:induction false} OrderedDescends(keys: set<Key>)
    ensures Descending(Ordered(keys))
  {
    if keys != {} {
      var rows := Ordered(keys);
      var top := rows[0];
      assert rows[1..] == Ordered(keys - {top});
      OrderedDescends(keys - {top});
      forall i, j | 0 <= i < j < |rows| ensures Less(rows[j], rows[i]) {
        assert rows[j] == rows[1..][j - 1];
        assert rows[j] in keys - {top};
        if i > 0 {
          assert Less(rows[1..][j - 1], rows[1..][i - 1]);
        }
      }
    }
  }

  datatype Page = Page(rows: seq<Key>, more: bool)

  function Smaller(a: int, b: int): int {
    if a < b then a else b
  }

  /** Fetches one row more than the page holds, to learn whether another page follows. */
  ghost function PageOf(table: set<Key>, before: Option<Key>, limit: nat): Page {
    var fetched := Ordered(Eligible(table, before));
    var rows := fetched[..Smaller(|fetched|, limit + 1)];
    Page(rows[..Smaller(|rows|, limit)], |rows| > limit)
  }

  lemma PageRows(table: set<Key>, before: Option<Key>, limit: nat)
    ensures var page := PageOf(table, before, limit); var fetched := Ordered(Eligible(table, before));
      && page.rows == fetched[..|page.rows|] && Descending(fetched)
      && (page.more ==> |page.rows| == limit)
      && (!page.more ==> page.rows == fetched)
  {
    OrderedDescends(Eligible(table, before));
  }

  lemma PrefixDescends(fetched: seq<Key>, n: nat)
    requires Descending(fetched) && n <= |fetched|
    ensures Descending(fetched[..n])
    ensures forall key :: key in fetched[..n] ==> key in fetched
    ensures forall key, row :: key in fetched && key !in fetched[..n] && row in fetched[..n] ==> Less(key, row)
  {
    forall i | 0 <= i < n ensures fetched[i] in fetched[..n] {
      assert fetched[..n][i] == fetched[i];
    }
    forall key, row | key in fetched && key !in fetched[..n] && row in fetched[..n] ensures Less(key, row) {
      var i :| 0 <= i < |fetched| && fetched[i] == key;
      var j :| 0 <= j < n && fetched[..n][j] == row;
    }
  }

  /** A page holds the greatest eligible rows, in order; every eligible row it leaves out is below all of it. */
  lemma PageIsTop(table: set<Key>, before: Option<Key>, limit: nat)
    ensures var page := PageOf(table, before, limit);
      && Descending(page.rows)
      && (forall key :: key in page.rows ==> key in table && Before(key, before))
      && (forall key, row :: key in table && Before(key, before) && key !in page.rows && row in page.rows ==> Less(key, row))
      && (page.more ==> |page.rows| == limit)
      && (!page.more ==> forall key :: key in table && Before(key, before) ==> key in page.rows)
  {
    var eligible := Eligible(table, before);
    PageRows(table, before, limit);
    PrefixDescends(Ordered(eligible), |PageOf(table, before, limit).rows|);
    OrderedDescends(eligible);
    assert forall key :: key in table && Before(key, before) <==> key in eligible;
  }

  // The walk

  /** The cursor a client has after these pages: the last row of the last one. */
  function Cursor(pages: seq<Page>): Option<Key> {
    if pages == [] then None else CursorOf(pages[|pages| - 1].rows)
  }

  function CursorOf(rows: seq<Key>): Option<Key> {
    if rows == [] then None else Some(rows[|rows| - 1])
  }

  /**
   A client's walk: `tables[i]` is the table when page i was read with the cursor of the pages
   before it, and each page but the last said that more follow. Anything may be inserted and
   deleted between two pages.
   */
  ghost predicate IsWalk(tables: seq<set<Key>>, pages: seq<Page>, limit: nat) {
    if pages == [] || tables == [] then pages == [] && tables == []
    else
      var n, earlier := |tables| - 1, pages[..|pages| - 1];
      && IsWalk(tables[..n], earlier, limit)
      && (earlier != [] ==> earlier[|earlier| - 1].more)
      && pages[|pages| - 1] == PageOf(tables[n], Cursor(earlier), limit)
  }

  ghost predicate Complete(pages: seq<Page>) {
    pages != [] && !pages[|pages| - 1].more
  }

  function Rows(pages: seq<Page>): seq<Key> {
    if pages == [] then [] else Rows(pages[..|pages| - 1]) + pages[|pages| - 1].rows
  }

  /** Every row so far is the cursor or above it. */
  ghost predicate NotBelow(rows: seq<Key>, cursor: Key) {
    forall row :: row in rows ==> row == cursor || Less(cursor, row)
  }

  lemma AppendBelow(earlier: seq<Key>, rows: seq<Key>, cursor: Option<Key>)
    requires Descending(earlier) && Descending(rows)
    requires earlier != [] ==> cursor.Some? && NotBelow(earlier, cursor.value)
    requires forall row :: row in rows ==> Before(row, cursor)
    ensures Descending(earlier + rows)
    ensures rows != [] ==> NotBelow(earlier + rows, rows[|rows| - 1])
  {
    forall above, row | above in earlier && row in rows ensures Less(row, above) {
      if above != cursor.value {
        LessTransitive(row, cursor.value, above);
      }
    }
    forall row | row in rows ensures row == rows[|rows| - 1] || Less(rows[|rows| - 1], row) {
      var j :| 0 <= j < |rows| && rows[j] == row;
    }
  }

  lemma PageBounds(table: set<Key>, before: Option<Key>, limit: nat)
    ensures var page := PageOf(table, before, limit);
      && Descending(page.rows)
      && (forall row :: row in page.rows ==> Before(row, before))
      && (page.more ==> |page.rows| == limit)
  {
    PageIsTop(table, before, limit);
  }

  /** Strictly descending, and not below the cursor when more pages follow. */
  ghost predicate Sound(rows: seq<Key>, more: bool, cursor: Option<Key>) {
    Descending(rows) && (more ==> cursor.Some? && NotBelow(rows, cursor.value))
  }

  lemma SoundStep(earlier: seq<Key>, page: Page, cursor: Option<Key>, limit: nat)
    requires limit > 0
    requires Descending(earlier) && (earlier != [] ==> cursor.Some? && NotBelow(earlier, cursor.value))
    requires Descending(page.rows) && (forall row :: row in page.rows ==> Before(row, cursor))
    requires page.more ==> |page.rows| == limit
    ensures Sound(earlier + page.rows, page.more, if page.rows == [] then None else Some(page.rows[|page.rows| - 1]))
  {
    AppendBelow(earlier, page.rows, cursor);
  }

  /** Everything returned so far is strictly descending and not below the next cursor. */
  lemma {:induction false} WalkDescends(tables: seq<set<Key>>, pages: seq<Page>, limit: nat)
    requires limit > 0 && IsWalk(tables, pages, limit)
    ensures Sound(Rows(pages), pages != [] && pages[|pages| - 1].more, Cursor(pages))
  {
    if pages != [] {
      var earlier, last, table := pages[..|pages| - 1], pages[|pages| - 1], tables[|tables| - 1];
      WalkDescends(tables[..|tables| - 1], earlier, limit);
      PageBounds(table, Cursor(earlier), limit);
      SoundStep(Rows(earlier), last, Cursor(earlier), limit);
    }
  }

  /** A row present whenever a page was read has been returned, or is still below the cursor. */
  ghost predicate Covered(pages: seq<Page>, key: Key) {
    key in Rows(pages) || (pages != [] ==> pages[|pages| - 1].more && Cursor(pages).Some? && Less(key, Cursor(pages).value))
  }

  /** A page returns what is below the cursor, or stays above it. */
  lemma CoveredStep(earlier: seq<Page>, page: Page, table: set<Key>, limit: nat, key: Key)
    requires limit > 0 && key in table && Covered(earlier, key) && page == PageOf(table, Cursor(earlier), limit)
    ensures key in Rows(earlier) || key in page.rows || (page.more && page.rows != [] && Less(key, page.rows[|page.rows| - 1]))
  {
    PageIsTop(table, Cursor(earlier), limit);
  }

  lemma {:induction false} WalkCovers(tables: seq<set<Key>>, pages: seq<Page>, limit: nat, key: Key)
    requires limit > 0 && IsWalk(tables, pages, limit)
    requires forall table :: table in tables ==> key in table
    ensures Covered(pages, key)
  {
    if pages != [] {
      var earlier := pages[..|pages| - 1];
      WalkCovers(tables[..|tables| - 1], earlier, limit, key);
      CoveredStep(earlier, pages[|pages| - 1], tables[|tables| - 1], limit, key);
    }
  }

  // Main results

  /**
   Under arbitrary inserts and deletes between the calls of a complete walk, every row present
   throughout is returned exactly once, and rows come in strictly descending order.
   */
  lemma EveryStableRowOnce(tables: seq<set<Key>>, pages: seq<Page>, limit: nat, key: Key)
    requires limit > 0 && IsWalk(tables, pages, limit) && Complete(pages)
    requires forall table :: table in tables ==> key in table
    ensures NewestFirst(Rows(pages))
    ensures exists i :: 0 <= i < |Rows(pages)| && Rows(pages)[i] == key
    ensures forall i, j :: 0 <= i < |Rows(pages)| && 0 <= j < |Rows(pages)| && Rows(pages)[i] == key == Rows(pages)[j] ==> i == j
  {
    WalkDescends(tables, pages, limit);
    WalkCovers(tables, pages, limit, key);
    DescendingIff(Rows(pages));
    LessTotal(key, key);
  }

  lemma {:induction false} RowsAreFromTables(tables: seq<set<Key>>, pages: seq<Page>, limit: nat, key: Key)
    requires IsWalk(tables, pages, limit) && key in Rows(pages)
    ensures exists table :: table in tables && key in table
  {
    var n, earlier, last := |tables| - 1, pages[..|pages| - 1], pages[|pages| - 1];
    PageIsTop(tables[n], Cursor(earlier), limit);
    if key in last.rows {
      assert tables[n] in tables && key in tables[n];
    } else {
      RowsAreFromTables(tables[..n], earlier, limit, key);
      var table :| table in tables[..n] && key in table;
      assert table in tables;
    }
  }

  lemma {:induction false} DescendingIsUnique(a: seq<Key>, b: seq<Key>)
    requires Descending(a) && Descending(b) && forall key :: key in a <==> key in b
    ensures a == b
  {
    assert a != [] ==> a[0] in a;
    assert b != [] ==> b[0] in b;
    if a != [] {
      LessTotal(a[0], b[0]);
      assert a[0] in b && b[0] in a;
      var i :| 0 <= i < |b| && b[i] == a[0];
      var j :| 0 <= j < |a| && a[j] == b[0];
      assert a[0] == b[0];
      forall key ensures key in a[1..] <==> key in b[1..] {
        LessTotal(key, key);
        if key in a[1..] {
          var k :| 0 <= k < |a[1..]| && a[1..][k] == key;
          assert Less(a[k + 1], a[0]) && key in a;
          var l :| 0 <= l < |b| && b[l] == key;
          assert b[1..][l - 1] == key;
        }
        if key in b[1..] {
          var k :| 0 <= k < |b[1..]| && b[1..][k] == key;
          assert Less(b[k + 1], b[0]) && key in b;
          var l :| 0 <= l < |a| && a[l] == key;
          assert a[1..][l - 1] == key;
        }
      }
      DescendingIsUnique(a[1..], b[1..]);
      assert a == [a[0]] + a[1..] && b == [b[0]] + b[1..];
    }
  }

  /** Over an unchanged table the pages, put together, are exactly its rows in descending order. */
  lemma UnchangedTableIsListedWhole(table: set<Key>, tables: seq<set<Key>>, pages: seq<Page>, limit: nat)
    requires limit > 0 && IsWalk(tables, pages, limit) && Complete(pages)
    requires forall t :: t in tables ==> t == table
    ensures Rows(pages) == Ordered(table) && NewestFirst(Rows(pages))
  {
    WalkDescends(tables, pages, limit);
    OrderedDescends(table);
    DescendingIff(Ordered(table));
    forall key ensures key in Rows(pages) <==> key in Ordered(table) {
      if key in table {
        WalkCovers(tables, pages, limit, key);
      }
      if key in Rows(pages) {
        RowsAreFromTables(tables, pages, limit, key);
      }
    }
    DescendingIsUnique(Rows(pages), Ordered(table));
  }

  // The clamped page of retained sessions

  function Clamp(limit: int): int {
    Smaller(100, if limit < 1 then 1 else limit)
  }

  /** What the listing says of a table with n eligible sessions: it compares the clamped fetch with the raw limit. */
  predicate SaysMore(limit: int, n: nat) {
    Smaller(n, Clamp(limit) + 1) > limit
  }

  /** It is right for every table exactly when the limit is one the endpoint accepts. */
  lemma SaysMoreIff(limit: int)
    ensures (forall n: nat :: SaysMore(limit, n) <==> n > Clamp(limit)) <==> 1 <= limit <= 100
  {
    if limit < 1 {
      assert SaysMore(limit, 1);
    } else if limit > 100 {
      assert !SaysMore(limit, 101);
    }
  }
}
