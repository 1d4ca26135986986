/**
 Listings whose rows move: a session keeps its identity while its sort key changes with every
 request recorded or dropped between two pages of a walk.
 */
module SessionPages {
  import opened Wrappers
  import opened Paging

  // How often a walk returns one identity

  /** A table lists every identity once. */
  ghost predicate OneKeyPerId(table: set<Key>) {
    forall a, b :: a in table && b in table && a.id == b.id ==> a == b
  }

  function Occurrences(rows: seq<Key>, id: seq<int>): nat {
    if rows == [] then 0
    else Occurrences(rows[..|rows| - 1], id) + if rows[|rows| - 1].id == id then 1 else 0
  }

  lemma {:induction false} OccurrencesAppend(a: seq<Key>, b: seq<Key>, id: seq<int>)
    ensures Occurrences(a + b, id) == Occurrences(a, id) + Occurrences(b, id)
  {
    if b == [] {
      assert a + b == a;
    } else {
      assert (a + b)[..|a + b| - 1] == a + b[..|b| - 1];
      OccurrencesAppend(a, b[..|b| - 1], id);
    }
  }

  lemma {:induction false} OccurrencesInPage(table: set<Key>, rows: seq<Key>, key: Key)
    requires OneKeyPerId(table) && key in table && Descending(rows) && forall row :: row in rows ==> row in table
    ensures Occurrences(rows, key.id) == if key in rows then 1 else 0
  {
    if rows != [] {
      var n := |rows| - 1;
      var earlier := rows[..n];
      OccurrencesInPage(table, earlier, key);
      assert rows == earlier + [rows[n]];
      assert rows[n] in table;
      LessTotal(key, key);
      assert rows[n] == key ==> forall i :: 0 <= i < n ==> Less(key, rows[i]);
    }
  }

  /** `keys[i]` is the key one identity has when page i is read. */
  ghost predicate Tracks(tables: seq<set<Key>>, keys: seq<Key>, id: seq<int>) {
    && |keys| == |tables|
    && forall i :: 0 <= i < |keys| ==> keys[i] in tables[i] && keys[i].id == id && OneKeyPerId(tables[i])
  }

  /** Between two pages the key moved from below the cursor to it or above: the walk will not meet it. */
  predicate Jumped(cursor: Option<Key>, before: Key, after: Key) {
    Before(before, cursor) && !Before(after, cursor)
  }

  /** It moved from the cursor or above to below: the walk will meet it again. */
  predicate Fell(cursor: Option<Key>, before: Key, after: Key) {
    !Before(before, cursor) && Before(after, cursor)
  }

  function Jumps(pages: seq<Page>, keys: seq<Key>): nat
    requires |pages| == |keys|
  {
    var n := |pages| - 1;
    if n < 1 then 0
    else Jumps(pages[..n], keys[..n]) + if Jumped(Cursor(pages[..n]), keys[n - 1], keys[n]) then 1 else 0
  }

  function Falls(pages: seq<Page>, keys: seq<Key>): nat
    requires |pages| == |keys|
  {
    var n := |pages| - 1;
    if n < 1 then 0
    else Falls(pages[..n], keys[..n]) + if Fell(Cursor(pages[..n]), keys[n - 1], keys[n]) then 1 else 0
  }

  /** Whether more pages follow and the key, as it was, is still below their cursor. */
  function Pending(pages: seq<Page>, keys: seq<Key>): nat
    requires |pages| == |keys| > 0
  {
    if pages[|pages| - 1].more && Before(keys[|keys| - 1], Cursor(pages)) then 1 else 0
  }

  /** One page returns a key exactly when it is below the page's cursor and not below the next one. */
  lemma PageReturns(table: set<Key>, before: Option<Key>, limit: nat, key: Key)
    requires limit > 0 && key in table
    ensures var page := PageOf(table, before, limit);
      && (page.more ==> page.rows != [])
      && (key in page.rows <==> Before(key, before) && !(page.more && Before(key, CursorOf(page.rows))))
      && (page.more && Before(key, CursorOf(page.rows)) ==> Before(key, before))
  {
    var page := PageOf(table, before, limit);
    PageIsTop(table, before, limit);
    if page.rows != [] {
      var last := page.rows[|page.rows| - 1];
      LessTotal(last, last);
      assert last in page.rows;
      if before.Some? && Less(key, last) { LessTransitive(key, last, before.value); }
      if key in page.rows {
        var i :| 0 <= i < |page.rows| && page.rows[i] == key;
        LessTotal(key, last);
      }
    }
  }

  lemma {:induction false} WalkLengths(tables: seq<set<Key>>, pages: seq<Page>, limit: nat)
    requires IsWalk(tables, pages, limit)
    ensures |tables| == |pages|
  {
    if pages != [] {
      WalkLengths(tables[..|tables| - 1], pages[..|pages| - 1], limit);
    }
  }

  /** One page moves a key from pending to returned, or leaves it where it was. */
  lemma PageBalance(table: set<Key>, cursor: Option<Key>, limit: nat, key: Key)
    requires limit > 0 && key in table && OneKeyPerId(table)
    ensures var page := PageOf(table, cursor, limit);
      Occurrences(page.rows, key.id) + (if page.more && Before(key, CursorOf(page.rows)) then 1 else 0)
      == if Before(key, cursor) then 1 else 0
  {
    var page := PageOf(table, cursor, limit);
    PageIsTop(table, cursor, limit);
    OccurrencesInPage(table, page.rows, key);
    PageReturns(table, cursor, limit, key);
  }

  /** Conservation over any walk: an identity is returned once, once more for each fall and once less for each jump. */
  lemma {:induction false} ReturnsAreConserved(tables: seq<set<Key>>, pages: seq<Page>, limit: nat, keys: seq<Key>, id: seq<int>)
    requires limit > 0 && IsWalk(tables, pages, limit) && Tracks(tables, keys, id) && pages != [] && |pages| == |keys|
    ensures Occurrences(Rows(pages), id) + Pending(pages, keys) == 1 + Falls(pages, keys) - Jumps(pages, keys)
  {
    var n := |pages| - 1;
    var earlier := pages[..n];
    OccurrencesAppend(Rows(earlier), pages[n].rows, id);
    PageBalance(tables[n], Cursor(earlier), limit, keys[n]);
    if n > 0 {
      assert Tracks(tables[..n], keys[..n], id);
      ReturnsAreConserved(tables[..n], earlier, limit, keys[..n], id);
    }
  }

  /**
   Under any inserts, deletes and moved keys between the calls of a complete walk, an identity
   present whenever a page was read is returned exactly once if and only if its key fell back
   below a cursor as often as it jumped over one.
   */
  lemma ReturnedOnceIff(tables: seq<set<Key>>, pages: seq<Page>, limit: nat, keys: seq<Key>, id: seq<int>)
    requires limit > 0 && IsWalk(tables, pages, limit) && Complete(pages) && Tracks(tables, keys, id) && |keys| == |pages|
    ensures Occurrences(Rows(pages), id) == 1 + Falls(pages, keys) - Jumps(pages, keys)
    ensures Occurrences(Rows(pages), id) == 1 <==> Falls(pages, keys) == Jumps(pages, keys)
  {
    ReturnsAreConserved(tables, pages, limit, keys, id);
  }

  /** A key that never drops cannot fall: it is returned at most once, and exactly once when it never jumped. */
  ghost predicate Rises(keys: seq<Key>) {
    forall i :: 0 <= i < |keys| - 1 ==> !Less(keys[i + 1], keys[i])
  }

  lemma {:induction false} RisingNeverFalls(pages: seq<Page>, keys: seq<Key>)
    requires |pages| == |keys| && Rises(keys)
    ensures Falls(pages, keys) == 0
  {
    var n := |pages| - 1;
    if n >= 1 {
      forall i | 0 <= i < |keys[..n]| - 1 ensures !Less(keys[..n][i + 1], keys[..n][i]) {
        assert !Less(keys[i + 1], keys[i]);
      }
      RisingNeverFalls(pages[..n], keys[..n]);
      var cursor := Cursor(pages[..n]);
      assert !Less(keys[n - 1 + 1], keys[n - 1]);
      if cursor.Some? && Less(keys[n], cursor.value) {
        LessTotal(keys[n - 1], keys[n]);
        if keys[n - 1] != keys[n] {
          LessTransitive(keys[n - 1], keys[n], cursor.value);
        }
      }
    }
  }

  lemma RisingReturnedAtMostOnce(tables: seq<set<Key>>, pages: seq<Page>, limit: nat, keys: seq<Key>, id: seq<int>)
    requires limit > 0 && IsWalk(tables, pages, limit) && Complete(pages) && Tracks(tables, keys, id) && |keys| == |pages|
    requires Rises(keys)
    ensures Occurrences(Rows(pages), id) <= 1
    ensures Occurrences(Rows(pages), id) == 1 <==> Jumps(pages, keys) == 0
  {
    ReturnedOnceIff(tables, pages, limit, keys, id);
    RisingNeverFalls(pages, keys);
  }

  // Retained sessions: keyed by the newest of their requests

  datatype RequestRow = RequestRow(rowId: int, session: Option<seq<int>>, receivedAt: real)

  predicate Newer(a: RequestRow, b: RequestRow) {
    a.receivedAt > b.receivedAt || (a.receivedAt == b.receivedAt && a.rowId > b.rowId)
  }

  predicate HasRequests(rows: set<RequestRow>, id: seq<int>) {
    exists r :: r in rows && r.session == Some(id)
  }

  ghost predicate IsLast(rows: set<RequestRow>, id: seq<int>, at: real) {
    && (exists r :: r in rows && r.session == Some(id) && r.receivedAt == at)
    && forall r :: r in rows && r.session == Some(id) ==> r.receivedAt <= at
  }

  lemma {:induction false} LastExists(rows: set<RequestRow>, id: seq<int>)
    requires HasRequests(rows, id)
    ensures exists at :: IsLast(rows, id, at)
  {
    var r :| r in rows && r.session == Some(id);
    if HasRequests(rows - {r}, id) {
      LastExists(rows - {r}, id);
      var at :| IsLast(rows - {r}, id, at);
      assert IsLast(rows, id, if at < r.receivedAt then r.receivedAt else at);
    } else {
      assert IsLast(rows, id, r.receivedAt);
    }
  }

  ghost function LastAt(rows: set<RequestRow>, id: seq<int>): (at: real)
    requires HasRequests(rows, id)
    ensures IsLast(rows, id, at)
  {
    LastExists(rows, id);
    var at :| IsLast(rows, id, at);
    at
  }

  ghost function RetainedKey(rows: set<RequestRow>, id: seq<int>): Key
    requires HasRequests(rows, id)
  {
    Key(0, LastAt(rows, id), id)
  }

  /** The grouped table behind the retained listing. */
  ghost predicate IsRetained(rows: set<RequestRow>, table: set<Key>) {
    && (forall key :: key in table ==> HasRequests(rows, key.id) && key == RetainedKey(rows, key.id))
    && (forall id :: HasRequests(rows, id) ==> RetainedKey(rows, id) in table)
  }

  lemma RetainedHasOneKeyPerSession(rows: set<RequestRow>, table: set<Key>)
    requires IsRetained(rows, table)
    ensures OneKeyPerId(table)
  {
  }

  datatype Change = Insert(row: RequestRow) | Prune(limit: nat)

  /** Pruning keeps the newest rows. */
  ghost predicate IsChanged(before: set<RequestRow>, change: Change, after: set<RequestRow>) {
    match change
    case Insert(row) => after == before + {row}
    case Prune(limit) =>
      && after <= before && |after| == Smaller(|before|, limit)
      && forall kept, gone :: kept in after && gone in before - after ==> Newer(kept, gone)
  }

  /** While a session has requests, inserts and pruning never lower its key. */
  lemma RetainedKeyRises(before: set<RequestRow>, change: Change, after: set<RequestRow>, id: seq<int>)
    requires IsChanged(before, change, after) && HasRequests(before, id) && HasRequests(after, id)
    ensures LastAt(before, id) <= LastAt(after, id)
  {
    var top :| top in before && top.session == Some(id) && top.receivedAt == LastAt(before, id);
    if top !in after {
      var kept :| kept in after && kept.session == Some(id);
      assert Newer(kept, top);
    }
  }

  /** The request table as it goes through a history of changes. */
  ghost predicate IsHistory(history: seq<set<RequestRow>>, changes: seq<Change>) {
    && |history| == |changes| + 1
    && forall i :: 0 <= i < |changes| ==> IsChanged(history[i], changes[i], history[i + 1])
  }

  lemma {:induction false} RetainedKeyRisesOverHistory(history: seq<set<RequestRow>>, changes: seq<Change>, i: nat, j: nat, id: seq<int>)
    requires IsHistory(history, changes) && i <= j < |history|
    requires forall k :: 0 <= k < |history| ==> HasRequests(history[k], id)
    ensures LastAt(history[i], id) <= LastAt(history[j], id)
    decreases j - i
  {
    if i < j {
      RetainedKeyRisesOverHistory(history, changes, i, j - 1, id);
      assert IsChanged(history[j - 1], changes[j - 1], history[j - 1 + 1]);
      RetainedKeyRises(history[j - 1], changes[j - 1], history[j], id);
    }
  }

  /** The moments of a history at which the pages of a walk are read. */
  ghost predicate ReadsAt(moments: seq<nat>, history: seq<set<RequestRow>>, tables: seq<set<Key>>) {
    && |moments| == |tables|
    && (forall i :: 0 <= i < |moments| ==> moments[i] < |history| && IsRetained(history[moments[i]], tables[i]))
    && forall i :: 0 <= i < |moments| - 1 ==> moments[i] <= moments[i + 1]
  }

  /**
   A retained session that has requests throughout is never returned twice, and is returned
   exactly once if and only if no request moved it over the cursor between two pages.
   */
  lemma RetainedSessionOnceIff(
      history: seq<set<RequestRow>>, changes: seq<Change>, moments: seq<nat>,
      tables: seq<set<Key>>, pages: seq<Page>, limit: nat, id: seq<int>, keys: seq<Key>)
    requires limit > 0 && IsHistory(history, changes) && ReadsAt(moments, history, tables)
    requires IsWalk(tables, pages, limit) && Complete(pages) && |keys| == |tables| == |pages|
    requires forall k :: 0 <= k < |history| ==> HasRequests(history[k], id)
    requires forall i :: 0 <= i < |keys| ==> keys[i] == RetainedKey(history[moments[i]], id)
    ensures Occurrences(Rows(pages), id) <= 1
    ensures Occurrences(Rows(pages), id) == 1 <==> Jumps(pages, keys) == 0
  {
    forall i | 0 <= i < |keys| ensures keys[i] in tables[i] && OneKeyPerId(tables[i]) {
      RetainedHasOneKeyPerSession(history[moments[i]], tables[i]);
    }
    forall i | 0 <= i < |keys| - 1 ensures !Less(keys[i + 1], keys[i]) {
      RetainedKeyRisesOverHistory(history, changes, moments[i], moments[i + 1], id);
      LessTotal(keys[i], keys[i]);
    }
    RisingReturnedAtMostOnce(tables, pages, limit, keys, id);
  }

  // Where a session is skipped, and where one is repeated

  lemma OrderedIs(keys: set<Key>, rows: seq<Key>)
    requires Descending(rows) && forall key :: key in keys <==> key in rows
    ensures Ordered(keys) == rows
  {
    OrderedDescends(keys);
    DescendingIsUnique(Ordered(keys), rows);
  }

  const FIRST := Key(0, 10.0, [1])
  const SECOND := Key(0, 5.0, [2])
  const SECOND_LATER := Key(0, 20.0, [2])

  /** A session on the second page is asked for again while the first page is being read: no page returns it. */
  lemma SessionIsSkipped()
    ensures var tables := [{FIRST, SECOND}, {FIRST, SECOND_LATER}];
      var pages := [Page([FIRST], true), Page([], false)];
      && IsWalk(tables, pages, 1) && Complete(pages)
      && Tracks(tables, [SECOND, SECOND_LATER], [2]) && Occurrences(Rows(pages), [2]) == 0
  {
    var first, second := Page([FIRST], true), Page([], false);
    OrderedIs(Eligible({FIRST, SECOND}, None), [FIRST, SECOND]);
    assert PageOf({FIRST, SECOND}, None, 1) == first;
    LessTotal(FIRST, FIRST);
    assert !Less(SECOND_LATER, FIRST);
    OrderedIs(Eligible({FIRST, SECOND_LATER}, Some(FIRST)), []);
    assert PageOf({FIRST, SECOND_LATER}, Some(FIRST), 1) == second;
    var tables, pages := [{FIRST, SECOND}, {FIRST, SECOND_LATER}], [first, second];
    TwoPages(tables[0], tables[1], first, second, 1);
    assert Rows(pages) == [FIRST] by { RowsOfTwo(first, second); }
    assert Occurrences([FIRST], [2]) == 0 by { assert [FIRST][..0] == []; }
  }

  const OLD_REQUESTS := {RequestRow(1, Some([1]), 10.0), RequestRow(2, Some([2]), 5.0)}
  const NEW_REQUEST := RequestRow(3, Some([2]), 20.0)

  lemma LastIs(rows: set<RequestRow>, id: seq<int>, at: real)
    requires IsLast(rows, id, at)
    ensures HasRequests(rows, id) && LastAt(rows, id) == at
  {
  }

  /** The skipped session's tables are those of two recorded requests, and of a third. */
  lemma SkippedByARequest()
    ensures IsRetained(OLD_REQUESTS, {FIRST, SECOND})
    ensures IsChanged(OLD_REQUESTS, Insert(NEW_REQUEST), OLD_REQUESTS + {NEW_REQUEST})
    ensures IsRetained(OLD_REQUESTS + {NEW_REQUEST}, {FIRST, SECOND_LATER})
  {
    var later := OLD_REQUESTS + {NEW_REQUEST};
    assert RequestRow(1, Some([1]), 10.0) in OLD_REQUESTS && RequestRow(2, Some([2]), 5.0) in OLD_REQUESTS && NEW_REQUEST in later;
    LastIs(OLD_REQUESTS, [1], 10.0);
    LastIs(OLD_REQUESTS, [2], 5.0);
    LastIs(later, [1], 10.0);
    LastIs(later, [2], 20.0);
  }

  lemma TwoPages(a: set<Key>, b: set<Key>, p: Page, q: Page, limit: nat)
    requires p == PageOf(a, None, limit) && p.more && q == PageOf(b, CursorOf(p.rows), limit)
    ensures IsWalk([a, b], [p, q], limit)
  {
    assert [a, b][..1] == [a] && [p, q][..1] == [p] && [a][..0] == [] && [p][..0] == [];
    assert IsWalk([], [], limit);
    assert IsWalk([a], [p], limit);
  }

  lemma RowsOfTwo(p: Page, q: Page)
    ensures Rows([p, q]) == p.rows + q.rows
  {
    assert [p, q][..1] == [p] && [p][..0] == [];
    assert Rows([p]) == p.rows;
  }

  /** A live session is listed by its newest retained request while it has one, and by its last update below all of those otherwise. */
  function LiveKey(latestRequest: Option<real>, updatedAt: real, id: seq<int>): Key {
    if latestRequest.Some? then Key(1, latestRequest.value, id) else Key(0, updatedAt, id)
  }

  const KNOWN := LiveKey(Some(10.0), 10.0, [1])
  const FORGOTTEN := LiveKey(None, 10.0, [1])
  const QUIET := LiveKey(None, 3.0, [2])

  lemma LastPage(tables: seq<set<Key>>, pages: seq<Page>, table: set<Key>, page: Page, limit: nat)
    requires IsWalk(tables, pages, limit) && pages != [] && pages[|pages| - 1].more && page == PageOf(table, Cursor(pages), limit)
    ensures IsWalk(tables + [table], pages + [page], limit) && Rows(pages + [page]) == Rows(pages) + page.rows
  {
    WalkLengths(tables, pages, limit);
    assert (tables + [table])[..|tables|] == tables && (pages + [page])[..|pages|] == pages;
  }

  lemma LiveOrder()
    ensures Less(QUIET, KNOWN) && Less(FORGOTTEN, KNOWN) && Less(QUIET, FORGOTTEN) && KNOWN != QUIET && FORGOTTEN != QUIET
    ensures !Less(KNOWN, KNOWN) && !Less(FORGOTTEN, FORGOTTEN)
  {
    LessTotal(KNOWN, KNOWN);
    LessTotal(FORGOTTEN, FORGOTTEN);
  }

  lemma LivePages()
    ensures PageOf({KNOWN, QUIET}, None, 1) == Page([KNOWN], true)
    ensures PageOf({FORGOTTEN, QUIET}, Some(KNOWN), 1) == Page([FORGOTTEN], true)
    ensures PageOf({FORGOTTEN, QUIET}, Some(FORGOTTEN), 1) == Page([QUIET], false)
  {
    LiveOrder();
    OrderedIs(Eligible({KNOWN, QUIET}, None), [KNOWN, QUIET]);
    OrderedIs(Eligible({FORGOTTEN, QUIET}, Some(KNOWN)), [FORGOTTEN, QUIET]);
    OrderedIs(Eligible({FORGOTTEN, QUIET}, Some(FORGOTTEN)), [QUIET]);
  }

  lemma OccurrencesOfOne(row: Key, id: seq<int>)
    ensures Occurrences([row], id) == if row.id == id then 1 else 0
  {
    assert [row][..0] == [];
  }

  const MOVED_TABLES := [{KNOWN, QUIET}, {FORGOTTEN, QUIET}, {FORGOTTEN, QUIET}]
  const MOVED_PAGES := [Page([KNOWN], true), Page([FORGOTTEN], true), Page([QUIET], false)]

  lemma MovedWalk()
    ensures IsWalk(MOVED_TABLES, MOVED_PAGES, 1) && Complete(MOVED_PAGES)
    ensures Rows(MOVED_PAGES) == [KNOWN] + [FORGOTTEN] + [QUIET]
  {
    var first, second, third := Page([KNOWN], true), Page([FORGOTTEN], true), Page([QUIET], false);
    var known, forgotten := {KNOWN, QUIET}, {FORGOTTEN, QUIET};
    LivePages();
    TwoPages(known, forgotten, first, second, 1);
    RowsOfTwo(first, second);
    LastPage([known, forgotten], [first, second], forgotten, third, 1);
    assert [known, forgotten] + [forgotten] == MOVED_TABLES && [first, second] + [third] == MOVED_PAGES;
  }

  /** The only request of a live session is pruned while the first page is being read: two pages return the session. */
  lemma SessionIsRepeated()
    ensures IsWalk(MOVED_TABLES, MOVED_PAGES, 1) && Complete(MOVED_PAGES)
    ensures Tracks(MOVED_TABLES, [KNOWN, FORGOTTEN, FORGOTTEN], [1]) && Occurrences(Rows(MOVED_PAGES), [1]) == 2
  {
    MovedWalk();
    OccurrencesAppend([KNOWN] + [FORGOTTEN], [QUIET], [1]);
    OccurrencesAppend([KNOWN], [FORGOTTEN], [1]);
    OccurrencesOfOne(KNOWN, [1]);
    OccurrencesOfOne(FORGOTTEN, [1]);
    OccurrencesOfOne(QUIET, [1]);
    assert QUIET.id[0] == 2;
  }
}
