/** Keyset pages over a table that changes between pages, for products (ascending) and orders (descending). */
module Keyset {
  import opened Domain

  const DEFAULT_PAGE_SIZE := 50
  const MAX_PAGE_SIZE := 200

  function NormalizePageSize(n: int): (r: nat)
    ensures 1 <= r <= 200
    ensures 1 <= n <= 200 ==> r == n
    ensures n <= 0 ==> r == 50
    ensures n > 200 ==> r == 200
  {
    if n <= 0 then DEFAULT_PAGE_SIZE else Min(n, MAX_PAGE_SIZE)
  }

  datatype Page<T> = Page(items: seq<T>, hasMore: bool)

  function MakePage<T>(rows: seq<T>, limit: nat): Page<T> {
    if |rows| <= limit then Page(rows, false) else Page(rows[..limit], true)
  }

  // The key to resume after; None on the last page.
  function NextCursor(page: Page<int>): Option<int> {
    if !page.hasMore || |page.items| == 0 then None else Some(page.items[|page.items| - 1])
  }

  predicate After(cursor: Option<int>, key: int) {
    cursor.Some? ==> cursor.value < key
  }

  predicate Increasing(keys: seq<int>) {
    forall i, j :: 0 <= i < j < |keys| ==> keys[i] < keys[j]
  }

  // WHERE key > cursor ORDER BY key LIMIT n.
  predicate IsSelect(table: set<int>, cursor: Option<int>, n: nat, rows: seq<int>) {
    && |rows| <= n && Increasing(rows)
    && (forall i :: 0 <= i < |rows| ==> rows[i] in table && After(cursor, rows[i]))
    && (forall key :: key in table && After(cursor, key) && key !in rows ==>
          |rows| == n && forall i :: 0 <= i < |rows| ==> rows[i] < key)
  }

  // The loop of FindAll and FindOrders over the rows of its query.
  method CollectPage<T>(rows: seq<T>, limit: nat) returns (page: Page<T>)
    ensures page == MakePage(rows, limit)
    ensures page.items == if |rows| < limit then rows else rows[..limit]
    ensures page.hasMore <==> |rows| > limit
  {
    var collected := [];
    for i := 0 to |rows|
      invariant collected == rows[..i]
    {
      collected := collected + [rows[i]];
    }
    if |collected| <= limit {
      page := Page(collected, false);
    } else {
      page := Page(collected[..limit], true);
    }
  }

  // The rows an order query may return: the caller's own, newest (largest id) first.
  function OrderKeys(orders: map<Uuid, Order>, userID: Uuid): set<int> {
    set o | o in orders && orders[o].userID == userID :: -(o as int)
  }

  // A page has a next cursor exactly when the table holds a key after its last item, and the page is then full.
  lemma CursorExactlyWhenMore(table: set<int>, cursor: Option<int>, limit: nat, rows: seq<int>)
    requires 1 <= limit && IsSelect(table, cursor, limit + 1, rows)
    ensures var page := MakePage(rows, limit);
      && (NextCursor(page).Some? <==> exists key :: key in table && After(cursor, key) && key !in page.items)
      && (NextCursor(page).Some? ==> |page.items| == limit && NextCursor(page).value == page.items[limit - 1]
                                     && forall key :: key in page.items ==> key <= NextCursor(page).value)
      && (forall key :: key in table && After(cursor, key) && key !in page.items ==> After(NextCursor(page), key))
  {
    if |rows| > limit {
      assert rows[limit] in table && rows[limit] !in rows[..limit];
    }
  }

  /* ---- Walks ---- */

  // The cursor that the page at i was fetched with.
  function CursorAt(rows: seq<seq<int>>, limit: nat, i: nat): Option<int>
    requires i <= |rows|
  {
    if i == 0 then None else NextCursor(MakePage(rows[i - 1], limit))
  }

  // The page at i is the query's answer for the cursor before it.
  predicate PageAt(tables: seq<set<int>>, rows: seq<seq<int>>, limit: nat, i: nat)
    requires i < |tables| && i < |rows|
  {
    IsSelect(tables[i], CursorAt(rows, limit, i), limit + 1, rows[i])
  }

  // Following nextCursor from the start; tables[i] is the table when the page at i was fetched.
  predicate Walk(tables: seq<set<int>>, rows: seq<seq<int>>, limit: nat) {
    && |tables| == |rows|
    && (forall i :: 0 <= i < |rows| ==> PageAt(tables, rows, limit, i))
    && (forall i :: 0 <= i < |rows| - 1 ==> NextCursor(MakePage(rows[i], limit)).Some?)
  }

  // A client stops at the first page without a cursor.
  predicate Ended(rows: seq<seq<int>>, limit: nat) {
    rows != [] && NextCursor(MakePage(rows[|rows| - 1], limit)).None?
  }

  function Returned(rows: seq<seq<int>>, limit: nat): seq<int> {
    if rows == [] then []
    else Returned(rows[..|rows| - 1], limit) + MakePage(rows[|rows| - 1], limit).items
  }

  predicate AlwaysPresent(tables: seq<set<int>>, key: int) {
    forall i :: 0 <= i < |tables| ==> key in tables[i]
  }

  predicate AtMost(keys: seq<int>, bound: int) {
    forall i :: 0 <= i < |keys| ==> keys[i] <= bound
  }

  lemma WalkPrefix(tables: seq<set<int>>, rows: seq<seq<int>>, limit: nat)
    requires Walk(tables, rows, limit) && rows != []
    ensures Walk(tables[..|rows| - 1], rows[..|rows| - 1], limit)
  {
    var n := |rows| - 1;
    forall i | 0 <= i < n ensures PageAt(tables[..n], rows[..n], limit, i) {
      assert PageAt(tables, rows, limit, i) && CursorAt(rows[..n], limit, i) == CursorAt(rows, limit, i);
    }
  }

  // The keys returned so far increase strictly up to the cursor.
  lemma {:induction false} ReturnedIncreases(tables: seq<set<int>>, rows: seq<seq<int>>, limit: nat)
    requires 1 <= limit && Walk(tables, rows, limit)
    ensures Increasing(Returned(rows, limit))
    ensures rows != [] && |rows[|rows| - 1]| > limit ==>
      CursorAt(rows, limit, |rows|).Some? && AtMost(Returned(rows, limit), CursorAt(rows, limit, |rows|).value)
    decreases |rows|
  {
    if rows != [] {
      var n := |rows| - 1;
      WalkPrefix(tables, rows, limit);
      ReturnedIncreases(tables[..n], rows[..n], limit);
      assert CursorAt(rows[..n], limit, n) == CursorAt(rows, limit, n);
      assert n > 0 ==> rows[..n][n - 1] == rows[n - 1];
      assert PageAt(tables, rows, limit, n);
    }
  }

  // A key present throughout has been returned exactly when the walk has passed it.
  lemma {:induction false} PresentIsReturned(tables: seq<set<int>>, rows: seq<seq<int>>, limit: nat, key: int)
    requires 1 <= limit && Walk(tables, rows, limit) && AlwaysPresent(tables, key) && rows != []
    ensures key in Returned(rows, limit) <==> Ended(rows, limit) || key <= CursorAt(rows, limit, |rows|).value
    decreases |rows|
  {
    var n := |rows| - 1;
    ReturnedIncreases(tables, rows, limit);
    assert PageAt(tables, rows, limit, n);
    if n > 0 {
      WalkPrefix(tables, rows, limit);
      PresentIsReturned(tables[..n], rows[..n], limit, key);
      assert CursorAt(rows[..n], limit, n) == CursorAt(rows, limit, n);
      assert rows[..n][n - 1] == rows[n - 1];
    }
  }

  // Everything returned was in the table when its page was fetched.
  lemma {:induction false} ReturnedWasPresent(tables: seq<set<int>>, rows: seq<seq<int>>, limit: nat, key: int)
    returns (i: nat)
    requires Walk(tables, rows, limit) && key in Returned(rows, limit)
    ensures i < |tables| && key in tables[i] && key in MakePage(rows[i], limit).items
    decreases |rows|
  {
    var n := |rows| - 1;
    if key in MakePage(rows[n], limit).items {
      i := n;
      assert PageAt(tables, rows, limit, n);
    } else {
      WalkPrefix(tables, rows, limit);
      i := ReturnedWasPresent(tables[..n], rows[..n], limit, key);
    }
  }

  function Times(keys: seq<int>, key: int): nat {
    multiset(keys)[key]
  }

  lemma {:induction false} IncreasingHasOnce(keys: seq<int>, key: int)
    requires Increasing(keys)
    ensures Times(keys, key) == if key in keys then 1 else 0
    decreases |keys|
  {
    if keys != [] {
      var n := |keys| - 1;
      assert keys == keys[..n] + [keys[n]];
      IncreasingHasOnce(keys[..n], key);
    }
  }

  // Whatever is inserted and deleted between pages, a walk that ends returns every row that was present
  // throughout exactly once, and no row twice.
  lemma WalkIsComplete(tables: seq<set<int>>, rows: seq<seq<int>>, limit: nat, key: int)
    requires 1 <= limit && Walk(tables, rows, limit) && Ended(rows, limit)
    ensures Increasing(Returned(rows, limit))
    ensures Times(Returned(rows, limit), key) <= 1
    ensures AlwaysPresent(tables, key) ==> Times(Returned(rows, limit), key) == 1
  {
    ReturnedIncreases(tables, rows, limit);
    IncreasingHasOnce(Returned(rows, limit), key);
    if AlwaysPresent(tables, key) {
      PresentIsReturned(tables, rows, limit, key);
    }
  }

  /* ---- How many pages a fixed table takes ---- */

  lemma ReturnedOneMore(rows: seq<seq<int>>, limit: nat)
    requires rows != []
    ensures |Returned(rows, limit)| == |Returned(rows[..|rows| - 1], limit)| + Min(|rows[|rows| - 1]|, limit)
  {
  }

  // All pages but the last are full.
  lemma {:induction false} ReturnedLength(rows: seq<seq<int>>, limit: nat)
    requires rows != [] && forall i :: 0 <= i < |rows| - 1 ==> |rows[i]| > limit
    ensures |Returned(rows, limit)| == (|rows| - 1) * limit + Min(|rows[|rows| - 1]|, limit)
    decreases |rows|
  {
    var n := |rows| - 1;
    ReturnedOneMore(rows, limit);
    if n > 0 {
      ReturnedLength(rows[..n], limit);
      OneMore(n, limit);
    }
  }

  lemma OneMore(n: nat, limit: nat)
    requires n > 0
    ensures n * limit == (n - 1) * limit + limit
  {
  }

  lemma {:induction false} IncreasingCovers(keys: seq<int>, table: set<int>)
    requires Increasing(keys) && (forall i :: 0 <= i < |keys| ==> keys[i] in table)
    requires forall key :: key in table ==> key in keys
    ensures |keys| == |table|
    decreases |keys|
  {
    if keys == [] {
      assert forall key :: key in table ==> key in keys;
      assert forall key :: key in table ==> false;
      assert table == {};
    } else {
      var n := |keys| - 1;
      assert keys == keys[..n] + [keys[n]];
      IncreasingCovers(keys[..n], table - {keys[n]});
    }
  }

  // On a fixed table of n rows the walk ends after max(1, ceil(n / limit)) pages.
  lemma FixedTablePages(table: set<int>, tables: seq<set<int>>, rows: seq<seq<int>>, limit: nat)
    requires 1 <= limit && Walk(tables, rows, limit) && Ended(rows, limit)
    requires forall i :: 0 <= i < |tables| ==> tables[i] == table
    ensures |table| <= |rows| * limit
    ensures |rows| > 1 ==> (|rows| - 1) * limit < |table|
  {
    var n := |rows| - 1;
    ReturnedIncreases(tables, rows, limit);
    ReturnedLength(rows, limit);
    forall key | key in table ensures key in Returned(rows, limit) {
      PresentIsReturned(tables, rows, limit, key);
    }
    forall i | 0 <= i < |Returned(rows, limit)| ensures Returned(rows, limit)[i] in table {
      var k := ReturnedWasPresent(tables, rows, limit, Returned(rows, limit)[i]);
    }
    IncreasingCovers(Returned(rows, limit), table);
    OneMore(|rows|, limit);
    if n > 0 {
      LastPageIsNotEmpty(table, tables, rows, limit);
    }
  }

  // The extra row that announced another page is on that page when nothing changes in between.
  lemma LastPageIsNotEmpty(table: set<int>, tables: seq<set<int>>, rows: seq<seq<int>>, limit: nat)
    requires 1 <= limit && Walk(tables, rows, limit) && |rows| > 1
    requires forall i :: 0 <= i < |tables| ==> tables[i] == table
    ensures |rows[|rows| - 1]| > 0
  {
    var n := |rows| - 1;
    assert PageAt(tables, rows, limit, n - 1);
    assert PageAt(tables, rows, limit, n);
    assert |rows[n - 1]| > limit;
    assert rows[n - 1][limit] in table && After(CursorAt(rows, limit, n), rows[n - 1][limit]);
  }

  // A walk that has not ended yet has left rows of a fixed table unreturned, so it cannot go on forever.
  lemma UnendedWalkIsShort(table: set<int>, tables: seq<set<int>>, rows: seq<seq<int>>, limit: nat)
    requires 1 <= limit && Walk(tables, rows, limit) && rows != [] && !Ended(rows, limit)
    requires forall i :: 0 <= i < |tables| ==> tables[i] == table
    ensures |rows| * limit < |table|
  {
    var n := |rows| - 1;
    var got := Returned(rows, limit);
    ReturnedIncreases(tables, rows, limit);
    ReturnedLength(rows, limit);
    OneMore(|rows|, limit);
    assert PageAt(tables, rows, limit, n);
    var next := rows[n][limit];
    assert next in table && next !in got;
    var covered := set key | key in table && key in got;
    forall i | 0 <= i < |got| ensures got[i] in covered {
      var k := ReturnedWasPresent(tables, rows, limit, got[i]);
    }
    IncreasingCovers(got, covered);
    SmallerSubset(covered, table, next);
  }

  lemma SmallerSubset(part: set<int>, whole: set<int>, extra: int)
    requires part <= whole && extra in whole && extra !in part
    ensures |part| < |whole|
  {
    assert |whole| == |part| + |whole - part|;
    assert extra in whole - part;
  }

  /* ---- Orders ---- */

  function OrderTables(tables: seq<map<Uuid, Order>>, userID: Uuid): seq<set<int>> {
    seq(|tables|, i requires 0 <= i < |tables| => OrderKeys(tables[i], userID))
  }

  // Orders are inserted, never changed or deleted.
  predicate Grows(before: map<Uuid, Order>, after: map<Uuid, Order>) {
    forall o :: o in before ==> o in after && after[o] == before[o]
  }

  predicate OnlyGrows(tables: seq<map<Uuid, Order>>) {
    forall i, j :: 0 <= i < j < |tables| ==> Grows(tables[i], tables[j])
  }

  lemma OwnOrderIsPresent(tables: seq<map<Uuid, Order>>, userID: Uuid, o: Uuid)
    requires OnlyGrows(tables) && tables != [] && o in tables[0] && tables[0][o].userID == userID
    ensures AlwaysPresent(OrderTables(tables, userID), -(o as int))
  {
    forall i | 0 <= i < |tables| ensures -(o as int) in OrderTables(tables, userID)[i] {
      assert i > 0 ==> Grows(tables[0], tables[i]);
    }
  }

  // A walk returns every order its caller had at the start exactly once; newest first by ReturnedIncreases.
  lemma OrderWalkIsComplete(tables: seq<map<Uuid, Order>>, userID: Uuid, rows: seq<seq<int>>, limit: nat, o: Uuid)
    requires 1 <= limit && Walk(OrderTables(tables, userID), rows, limit) && Ended(rows, limit) && OnlyGrows(tables)
    requires o in tables[0] && tables[0][o].userID == userID
    ensures Times(Returned(rows, limit), -(o as int)) == 1
  {
    OwnOrderIsPresent(tables, userID, o);
    WalkIsComplete(OrderTables(tables, userID), rows, limit, -(o as int));
  }

  // A walk returns no other user's order.
  lemma OrderWalkIsPrivate(tables: seq<map<Uuid, Order>>, userID: Uuid, rows: seq<seq<int>>, limit: nat, key: int)
    returns (i: nat, o: Uuid)
    requires Walk(OrderTables(tables, userID), rows, limit) && key in Returned(rows, limit)
    ensures key == -(o as int) && i < |tables| && o in tables[i] && tables[i][o].userID == userID
  {
    i := ReturnedWasPresent(OrderTables(tables, userID), rows, limit, key);
    assert key in OrderKeys(tables[i], userID);
    o :| o in tables[i] && tables[i][o].userID == userID && key == -(o as int);
  }
}
