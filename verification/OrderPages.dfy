/** The order pages over a run of the store: the table a walk sees only grows. */
module OrderPages {
  import opened Domain
  import opened Store
  import opened Transactions
  import opened OrderGuarantees
  import opened Keyset

  // Over any stretch of a run, orders are added and never changed or deleted: what the order pages rely on.
  lemma {:induction false} OrdersOnlyGrow(ttl: nat, run: seq<State>, i: nat, j: nat)
    requires Behavior(ttl, run) && i <= j < |run|
    ensures Keyset.Grows(run[i].db.orders, run[j].db.orders)
    decreases j - i
  {
    if i < j {
      OrdersOnlyGrow(ttl, run, i, j - 1);
      ReachableInv(ttl, run[..j]);
      var s := run[j - 1];
      assert Step(ttl, s, run[j]);
      var l :| Enabled(s, l) && run[j] == Apply(s, ttl, l);
      if l.Commit? {
        assert TxInv(s.db, s.now, ttl, s.txs[l.t]) && FreshIds(s.db, s.txs[l.t].call);
        CommitFrame(s, ttl, l.t);
      }
    }
  }

  // An order once returned by a purchase stays in the table as it was returned.
  lemma {:induction false} PlacedOrderIsStored(done: seq<Committed>, ttl: nat, k: nat)
    requires Outcomes(done, ttl) && k < |done| && IsPurchase(done[k])
    ensures var orders, o := Serial(done, ttl).orders, done[k].outcome.order;
      o.id in orders && orders[o.id] == o && o.userID == done[k].call.req.userID
    decreases |done|
  {
    var n := |done| - 1;
    assert OutcomeAt(done, ttl, n);
    if k < n {
      OutcomesBefore(done, ttl, n);
      PlacedOrderIsStored(done[..n], ttl, k);
      CallOnKeyRow(Serial(done[..n], ttl), done[n], ttl, done[k].call.req.UK());
    }
  }

  // A finished walk through the caller's orders; the page at i was fetched in the state run[at[i]].
  predicate WalkOverRun(run: seq<State>, at: seq<nat>, userID: Uuid, rows: seq<seq<int>>, limit: nat) {
    && at != [] && 1 <= limit
    && (forall i :: 0 <= i < |at| ==> at[i] < |run|)
    && (forall i, j :: 0 <= i < j < |at| ==> at[i] <= at[j])
    && Walk(OrderTables(OrdersAt(run, at), userID), rows, limit) && Ended(rows, limit)
  }

  function OrdersAt(run: seq<State>, at: seq<nat>): seq<map<Uuid, Order>>
    requires forall i :: 0 <= i < |at| ==> at[i] < |run|
  {
    seq(|at|, i requires 0 <= i < |at| => run[at[i]].db.orders)
  }

  lemma PagesOnlyGrow(ttl: nat, run: seq<State>, at: seq<nat>)
    requires Behavior(ttl, run)
    requires forall i :: 0 <= i < |at| ==> at[i] < |run|
    requires forall i, j :: 0 <= i < j < |at| ==> at[i] <= at[j]
    ensures OnlyGrows(OrdersAt(run, at))
  {
    var tables := OrdersAt(run, at);
    forall i, j | 0 <= i < j < |tables| ensures Grows(tables[i], tables[j]) {
      OrdersOnlyGrow(ttl, run, at[i], at[j]);
    }
  }

  lemma PlacedOrderWasStored(ttl: nat, run: seq<State>, n: nat, k: nat)
    requires Behavior(ttl, run) && n < |run| && k < |run[n].done| && IsPurchase(run[n].done[k])
    ensures var orders, o := run[n].db.orders, run[n].done[k].outcome.order;
      o.id in orders && orders[o.id] == o && o.userID == run[n].done[k].call.req.userID
  {
    ReachableInv(ttl, run[..n + 1]);
    assert Final(run[..n + 1]) == run[n];
    PlacedOrderIsStored(run[n].done, ttl, k);
  }

  // A client that follows nextCursor while the store goes on working gets every order it had placed before the
  // first page exactly once.
  lemma PlacedOrderIsListed(
    ttl: nat, run: seq<State>, at: seq<nat>, userID: Uuid, rows: seq<seq<int>>, limit: nat, k: nat)
    requires Behavior(ttl, run) && WalkOverRun(run, at, userID, rows, limit)
    requires k < |run[at[0]].done| && IsPurchase(run[at[0]].done[k]) && run[at[0]].done[k].call.req.userID == userID
    ensures Times(Returned(rows, limit), -(run[at[0]].done[k].outcome.order.id as int)) == 1
  {
    PagesOnlyGrow(ttl, run, at);
    PlacedOrderWasStored(ttl, run, at[0], k);
    OrderWalkIsComplete(OrdersAt(run, at), userID, rows, limit, run[at[0]].done[k].outcome.order.id);
  }

  // And whatever it gets is one of its own orders, which the table still holds.
  lemma ListedOrderIsOwn(
    ttl: nat, run: seq<State>, at: seq<nat>, userID: Uuid, rows: seq<seq<int>>, limit: nat, key: int)
    returns (o: Uuid)
    requires Behavior(ttl, run) && WalkOverRun(run, at, userID, rows, limit) && key in Returned(rows, limit)
    ensures key == -(o as int) && o in Final(run).db.orders && Final(run).db.orders[o].userID == userID
    ensures Times(Returned(rows, limit), key) == 1
  {
    var i;
    i, o := OrderWalkIsPrivate(OrdersAt(run, at), userID, rows, limit, key);
    OrdersOnlyGrow(ttl, run, at[i], |run| - 1);
    ReturnedIncreases(OrderTables(OrdersAt(run, at), userID), rows, limit);
    IncreasingHasOnce(Returned(rows, limit), key);
  }
}
