/** What the store promises over every run of concurrent calls, retries, rollbacks, reclaims and purges. */
module OrderGuarantees {
  import opened Domain
  import opened Store
  import opened Transactions

  // The committed tables and all results are those of running the committed calls alone, in commit order.
  lemma SerialEquivalence(ttl: nat, run: seq<State>)
    requires Behavior(ttl, run)
    ensures Final(run).db == Serial(Final(run).done, ttl) && Outcomes(Final(run).done, ttl)
  {
    ReachableInv(ttl, run);
  }

  lemma ExactlyOncePurchase(ttl: nat, run: seq<State>, i: nat, j: nat)
    requires Behavior(ttl, run)
    requires i < j < |Final(run).done|
    requires IsPurchase(Final(run).done[i]) && IsPurchase(Final(run).done[j])
    requires SameKey(Final(run).done[i], Final(run).done[j])
    ensures Final(run).done[i].start + ttl < Final(run).done[j].claimAt
  {
    ReachableInv(ttl, run);
  }

  lemma OutcomesBefore(done: seq<Committed>, ttl: nat, n: nat)
    requires Outcomes(done, ttl) && n <= |done|
    ensures Outcomes(done[..n], ttl)
  {
    forall k | 0 <= k < n ensures OutcomeAt(done[..n], ttl, k) {
      assert done[..n][..k] == done[..k] && OutcomeAt(done, ttl, k);
    }
  }

  /* ---- Replay ---- */

  // The i-th committed call is the newest purchase under uk.
  predicate NewestPurchase(done: seq<Committed>, uk: UserKey, i: nat) {
    && i < |done| && IsPurchase(done[i]) && done[i].call.req.UK() == uk
    && forall j :: i < j < |done| && IsPurchase(done[j]) ==> done[j].call.req.UK() != uk
  }

  // The key row was stored by the i-th call: it links that call's order and expires with it.
  predicate StoredBy(db: Db, row: KeyRow, ttl: nat, c: Committed) {
    && c.call.CreateOrder? && c.outcome.Ordered?
    && row == KeyRow(c.call.req.Hash(), Some(c.call.req.orderID), c.start + ttl)
    && c.call.req.orderID in db.orders && db.orders[c.call.req.orderID] == c.outcome.order
  }

  // A call stores a key row by a purchase under it, and otherwise leaves it and the orders as they are.
  lemma CallOnKeyRow(db: Db, c: Committed, ttl: nat, uk: UserKey)
    requires c.outcome == Atomic(db, c.call, c.start, ttl).outcome
    ensures var db' := Atomic(db, c.call, c.start, ttl).db;
      && (forall o :: o in db.orders ==> o in db'.orders && db'.orders[o] == db.orders[o])
      && (uk in db'.keys ==>
          if IsPurchase(c) && c.call.req.UK() == uk then StoredBy(db', db'.keys[uk], ttl, c)
          else uk in db.keys && db'.keys[uk] == db.keys[uk])
  {
  }

  lemma {:induction false} KeyRowHasPurchase(done: seq<Committed>, ttl: nat, uk: UserKey) returns (i: nat)
    requires Outcomes(done, ttl) && uk in Serial(done, ttl).keys
    ensures NewestPurchase(done, uk, i) && StoredBy(Serial(done, ttl), Serial(done, ttl).keys[uk], ttl, done[i])
    decreases |done|
  {
    var n := |done| - 1;
    var before := done[..n];
    assert OutcomeAt(done, ttl, n);
    CallOnKeyRow(Serial(before, ttl), done[n], ttl, uk);
    if IsPurchase(done[n]) && done[n].call.req.UK() == uk {
      i := n;
    } else {
      OutcomesBefore(done, ttl, n);
      i := KeyRowHasPurchase(before, ttl, uk);
    }
  }

  // The order that an unexpired key row replays, given the purchase that stored the row.
  lemma ReplayOfStoredRow(s: State, ttl: nat, t: nat, c: Committed)
    requires RunningOrder(s, t, Conflict) && TxInv(s.db, s.now, ttl, s.txs[t])
    requires var uk := s.txs[t].call.req.UK();
      uk in s.db.keys && KeyInv(s.db, uk) && StoredBy(s.db, s.db.keys[uk], ttl, c)
    ensures var req := s.txs[t].call.req;
      && c.outcome.order.userID == req.userID
      && (Enabled(s, Replay(t)) <==> req.Hash() == c.call.req.Hash())
      && (Enabled(s, Replay(t)) ==> Advance(s, ttl, Replay(t)).replay == Some(c.outcome.order))
      && !Enabled(s, Commit(t))
  {
  }

  // A repeat whose claim met an unexpired key replays the order of the newest purchase under that key when
  // the payload is the same; with another payload it can only roll back.
  lemma RepeatReplaysFirstOrder(ttl: nat, run: seq<State>, t: nat) returns (i: nat)
    requires Behavior(ttl, run)
    requires RunningOrder(Final(run), t, Conflict)
    ensures var s := Final(run);
      var req := s.txs[t].call.req;
      && NewestPurchase(s.done, req.UK(), i)
      && s.done[i].outcome.order.userID == req.userID
      && (Enabled(s, Replay(t)) <==> req.Hash() == s.done[i].call.req.Hash())
      && (Enabled(s, Replay(t)) ==> Advance(s, ttl, Replay(t)).replay == Some(s.done[i].outcome.order))
      && !Enabled(s, Commit(t))
  {
    var s := Final(run);
    ReachableInv(ttl, run);
    var req := s.txs[t].call.req;
    assert TxInv(s.db, s.now, ttl, s.txs[t]);
    i := KeyRowHasPurchase(s.done, ttl, req.UK());
    ReplayOfStoredRow(s, ttl, t, s.done[i]);
  }

  // Every repeat that committed returned the order of the newest purchase under its key before it, placed with
  // the same payload and not yet expired when the repeat began.
  lemma ReplayReturnsPurchase(ttl: nat, run: seq<State>, j: nat) returns (i: nat)
    requires Behavior(ttl, run) && j < |Final(run).done|
    requires Final(run).done[j].outcome.Ordered? && Final(run).done[j].outcome.replayed
    ensures var done := Final(run).done;
      && done[j].call.CreateOrder? && i < j && NewestPurchase(done[..j], done[j].call.req.UK(), i)
      && done[j].call.req.Hash() == done[i].call.req.Hash()
      && done[j].outcome.order == done[i].outcome.order
      && done[j].start <= done[i].start + ttl
  {
    var done := Final(run).done;
    ReachableInv(ttl, run);
    assert OutcomeAt(done, ttl, j);
    OutcomesBefore(done, ttl, j);
    i := KeyRowHasPurchase(done[..j], ttl, done[j].call.req.UK());
  }

  /* ---- Failures, and what one call touches ---- */

  // A failed call run alone leaves the tables as they were.
  lemma FailureChangesNothing(db: Db, call: Call, start: nat, ttl: nat)
    ensures Atomic(db, call, start, ttl).outcome.Failed? ==> Atomic(db, call, start, ttl).db == db
  {
  }

  // In any interleaving, a call that would fail if run alone on the committed tables cannot commit, however far
  // its statements have come: all it can do to end is roll back, which changes nothing.
  lemma FailureCannotCommit(ttl: nat, run: seq<State>, t: nat)
    requires Behavior(ttl, run) && t in Final(run).txs
    requires var tx := Final(run).txs[t]; Atomic(Final(run).db, CallOf(tx), tx.start, ttl).outcome.Failed?
    ensures !Enabled(Final(run), Commit(t))
    ensures Enabled(Final(run), Rollback(t))
    ensures var s, s', tx := Final(run), Apply(Final(run), ttl, Rollback(t)), Final(run).txs[t];
      && s'.db == s.db == Atomic(s.db, CallOf(tx), tx.start, ttl).db
      && s'.done == s.done && s'.txs == s.txs - {t}
  {
    var s := Final(run);
    ReachableInv(ttl, run);
    assert TxInv(s.db, s.now, ttl, s.txs[t]) && FreshIds(s.db, s.txs[t].call);
    FailureChangesNothing(s.db, CallOf(s.txs[t]), s.txs[t].start, ttl);
    if Committable(s.txs[t]) {
      CommitIsAtomic(s, ttl, t);
    }
  }

  lemma {:induction false} OnlySuccessesCommit(ttl: nat, run: seq<State>, i: nat)
    requires Behavior(ttl, run) && i < |Final(run).done|
    ensures !Final(run).done[i].outcome.Failed?
    decreases |run|
  {
    var before := run[..|run| - 1];
    assert Step(ttl, run[|run| - 2], run[|run| - 1]);
    if i < |Final(before).done| {
      OnlySuccessesCommit(ttl, before, i);
    }
  }

  // A call writes its target row only; a purchase takes stock and leaves name and price, and its order keeps
  // the price paid; an update leaves stock.
  lemma CallsTouchOneRow(db: Db, call: Call, start: nat, ttl: nat, id: Uuid)
    ensures var Effect(db', outcome) := Atomic(db, call, start, ttl);
      && (Target(call) != Some(id) ==> (id in db.products <==> id in db'.products)
                                       && (id in db.products ==> db'.products[id] == db.products[id]))
      && (call.Update? && id in db.products && id in db'.products ==> db'.products[id].stock == db.products[id].stock)
      && (call.CreateOrder? && id in db.products ==>
          && id in db'.products
          && db'.products[id].name == db.products[id].name && db'.products[id].price == db.products[id].price)
      && (call.CreateOrder? && outcome.Ordered? && !outcome.replayed ==>
          && call.req.productID in db.products && call.req.productID in db'.products
          && outcome.order.unitPrice == db.products[call.req.productID].price
          && db'.products[call.req.productID].stock + outcome.order.quantity == db.products[call.req.productID].stock)
  {
  }

  /* ---- Event log and stock ---- */

  // In every committed state: gapless versions, a row that matches its events, and conserved stock.
  lemma LogAgreesWithTables(ttl: nat, run: seq<State>, id: Uuid)
    requires Behavior(ttl, run)
    ensures var db := Final(run).db;
      var events := EventsOf(db.log, id);
      && GoodHistory(events)
      && (id in db.products <==> events != [] && !events[|events| - 1].kind.Deleted?)
      && (id in db.products ==>
          && db.products[id].version == |events|
          && db.products[id].stock == FoldStock(events) >= 0
          && events[0].stock == db.products[id].stock + Sold(db.orders, id))
      && (forall o :: o in db.orders ==> db.orders[o].productID in db.products)
  {
    ReachableInv(ttl, run);
    assert ProductInv(Final(run).db, id);
    assert forall o :: o in Final(run).db.orders ==> OrderInv(Final(run).db, o);
  }

  // The events of a product alone determine whether it exists, its version and its stock.
  lemma LogDeterminesProduct(ttl: nat, run: seq<State>, ttl': nat, run': seq<State>, id: Uuid)
    requires Behavior(ttl, run) && Behavior(ttl', run')
    requires EventsOf(Final(run).db.log, id) == EventsOf(Final(run').db.log, id)
    ensures var db, db' := Final(run).db, Final(run').db;
      && (id in db.products <==> id in db'.products)
      && (id in db.products ==> db.products[id].version == db'.products[id].version
                                && db.products[id].stock == db'.products[id].stock
                                && Sold(db.orders, id) == Sold(db'.orders, id))
  {
    LogAgreesWithTables(ttl, run, id);
    LogAgreesWithTables(ttl', run', id);
  }

  /* ---- Lock waits ---- */

  predicate WantsKey(s: State, tx: Tx, uk: UserKey) {
    || (tx.call.CreateOrder? && tx.pc.Begun? && uk == tx.call.req.UK())
    || (tx.call.Purge? && uk in s.db.keys && s.db.keys[uk].expires < tx.start)
  }

  predicate WantsRow(tx: Tx, id: Uuid) {
    Target(tx.call) == Some(id) && tx.pc == if tx.call.CreateOrder? then Claimed else Begun
  }

  // t's next statement needs a lock that u holds.
  ghost predicate WaitsFor(s: State, t: nat, u: nat) {
    && t in s.txs && u in s.txs && t != u
    && ((exists uk :: WantsKey(s, s.txs[t], uk) && HoldsKey(s.txs[u], uk))
        || (exists id :: WantsRow(s.txs[t], id) && HoldsRow(s.txs[u], id)))
  }

  ghost predicate Blocked(s: State, t: nat) {
    exists u :: WaitsFor(s, t, u)
  }

  // Waiting is what keeps a statement from going ahead: the claim, and the row statement that the tables allow,
  // are enabled exactly when the transaction waits for nobody.
  lemma BlockedExactlyWhen(s: State, t: nat)
    requires t in s.txs && !s.txs[t].call.Purge?
    ensures RunningOrder(s, t, Begun) ==> (Enabled(s, Claim(t)) <==> !Blocked(s, t))
    ensures RunningOrder(s, t, Claimed) && InStock(s.db, s.txs[t].call.req) ==>
      (Enabled(s, Purchase(t)) <==> !Blocked(s, t))
    ensures Running(s, t, Begun) && RowWritable(s.db, s.txs[t].call) ==> (Enabled(s, WriteRow(t)) <==> !Blocked(s, t))
  {
    var tx := s.txs[t];
    if tx.call.CreateOrder? && tx.pc.Begun? && !KeyFree(s, t, tx.call.req.UK()) {
      var u :| u in s.txs && u != t && HoldsKey(s.txs[u], tx.call.req.UK());
      assert WantsKey(s, tx, tx.call.req.UK()) && WaitsFor(s, t, u);
    }
    if WantsRow(tx, Target(tx.call).value) && !RowFree(s, t, Target(tx.call).value) {
      var u :| u in s.txs && u != t && HoldsRow(s.txs[u], Target(tx.call).value);
      assert WaitsFor(s, t, u);
    }
  }

  ghost predicate WaitPath(s: State, path: seq<nat>) {
    && |path| > 0 && path[0] in s.txs
    && forall i :: 0 <= i < |path| - 1 ==> WaitsFor(s, path[i], path[i + 1])
  }

  // Keys are locked before products, so waiting leads from lower to higher ranks.
  function Rank(tx: Tx): nat {
    if tx.call.Purge? then 1
    else if tx.pc.Begun? then 0
    else if tx.pc.Claimed? then 2
    else 3
  }

  lemma WaitRaisesRank(s: State, ttl: nat, t: nat, u: nat)
    requires TxsInv(s, ttl) && WaitsFor(s, t, u)
    ensures Rank(s.txs[t]) < Rank(s.txs[u]) || (s.txs[t].call.Purge? && s.txs[u].call.Purge?)
  {
    assert TxInv(s.db, s.now, ttl, s.txs[t]) && TxInv(s.db, s.now, ttl, s.txs[u]);
  }

  lemma {:induction false} PathRaisesRank(s: State, ttl: nat, path: seq<nat>, i: nat, j: nat)
    requires TxsInv(s, ttl) && WaitPath(s, path) && i <= j < |path|
    ensures path[i] in s.txs && path[j] in s.txs && Rank(s.txs[path[i]]) <= Rank(s.txs[path[j]])
    decreases j - i
  {
    if i < j {
      assert WaitsFor(s, path[i], path[i + 1]);
      WaitRaisesRank(s, ttl, path[i], path[i + 1]);
      PathRaisesRank(s, ttl, path, i + 1, j);
    } else if i > 0 {
      assert WaitsFor(s, path[i - 1], path[i]);
    }
  }

  // Around a circle of waits the rank cannot rise, so every wait in it is of a purge for a purge.
  lemma WaitInCircle(s: State, ttl: nat, cycle: seq<nat>, k: nat)
    requires TxsInv(s, ttl) && WaitPath(s, cycle) && cycle[0] == cycle[|cycle| - 1] && k + 1 < |cycle|
    ensures cycle[k] in s.txs && s.txs[cycle[k]].call.Purge? && cycle[k + 1] in s.txs && s.txs[cycle[k + 1]].call.Purge?
  {
    PathRaisesRank(s, ttl, cycle, 0, k);
    PathRaisesRank(s, ttl, cycle, k + 1, |cycle| - 1);
    assert WaitsFor(s, cycle[k], cycle[k + 1]);
    WaitRaisesRank(s, ttl, cycle[k], cycle[k + 1]);
  }

  lemma CircleOfPurges(s: State, ttl: nat, cycle: seq<nat>)
    requires TxsInv(s, ttl) && |cycle| > 1 && WaitPath(s, cycle) && cycle[0] == cycle[|cycle| - 1]
    ensures forall i :: 0 <= i < |cycle| ==> cycle[i] in s.txs && s.txs[cycle[i]].call.Purge?
  {
    forall i | 0 <= i < |cycle| ensures cycle[i] in s.txs && s.txs[cycle[i]].call.Purge? {
      WaitInCircle(s, ttl, cycle, if i < |cycle| - 1 then i else i - 1);
    }
  }

  // Transactions can wait for each other in a circle only when all of them are purges.
  lemma NoDeadlock(ttl: nat, run: seq<State>, cycle: seq<nat>)
    requires Behavior(ttl, run)
    requires |cycle| > 1 && WaitPath(Final(run), cycle) && cycle[0] == cycle[|cycle| - 1]
    ensures forall i :: 0 <= i < |cycle| ==> cycle[i] in Final(run).txs && Final(run).txs[cycle[i]].call.Purge?
  {
    ReachableInv(ttl, run);
    CircleOfPurges(Final(run), ttl, cycle);
  }
}
