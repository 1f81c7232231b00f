/**
 Why the exactly-once guarantee is about the moment of the claim. A transaction that began before a key row
 expired buys again if a purge deletes the row before it claims; counted from the transactions' starts the
 guarantee holds exactly when no purge does so.
 */
module StalledClaim {
  import opened Domain
  import opened Store
  import opened Transactions
  import opened OrderGuarantees
  import opened CallsComplete

  const WIDGET := Product(1, "widget", Money(999, PLN), 10, 1)
  const FIRST := Request(2, 9, 1, 2, "key")
  const TWIN := Request(3, 9, 1, 2, "key")

  const FIRST_ROW := KeyRow(FIRST.Hash(), Some(2), 0)

  const SAVING :=
    Tx(Save(WIDGET, 4), 0, Ready, 0, None, Some(WIDGET), None, Some(NewEvent(4, Created, WIDGET)), None, {})

  lemma WriteWidget(ttl: nat) returns (run: seq<State>)
    ensures Behavior(ttl, run) && Final(run) == State(0, EMPTY, map[0 := SAVING], {1}, [])
  {
    run := [State(0, EMPTY, map[], {}, [])];
    run := Extend(ttl, run, Begin(0, Save(WIDGET, 4)));
    run := Extend(ttl, run, WriteRow(0));
    run := Extend(ttl, run, InsertEvent(0));
  }

  lemma SaveWidget(ttl: nat) returns (run: seq<State>)
    ensures Behavior(ttl, run)
    ensures var s := Final(run);
      && s.now == 0 && s.txs == map[] && s.ids == {1} && |s.done| == 1
      && s.db.products == map[1 := WIDGET] && s.db.keys == map[] && s.db.orders == map[]
  {
    run := WriteWidget(ttl);
    run := Extend(ttl, run, Commit(0));
  }

  function Waiting(req: Request, eventID: Uuid, start: nat): Tx {
    Tx(CreateOrder(req, eventID), start, Begun, start, None, None, None, None, None, {})
  }

  // A product on sale, and an order for it placed at time zero.
  lemma FirstBuys(ttl: nat) returns (run: seq<State>)
    ensures Behavior(ttl, run)
    ensures var s := Final(run);
      && s.now == 0 && s.db.keys == map[FIRST.UK() := FIRST_ROW.(expires := ttl)] && s.txs == map[] && s.ids == {1, 2}
      && 1 in s.db.products && s.db.products[1].stock == 8
      && |s.done| == 2 && IsPurchase(s.done[1]) && s.done[1].call == CreateOrder(FIRST, 5) && s.done[1].start == 0
  {
    run := SaveWidget(ttl);
    run := Extend(ttl, run, Begin(1, CreateOrder(FIRST, 5)));
    run := PurchaseCompletes(ttl, run, 1);
  }

  // The same order begins again at the last moment before the key row expires.
  lemma TwinBegins(ttl: nat) returns (run: seq<State>)
    ensures Behavior(ttl, run)
    ensures var s := Final(run);
      && s.now == ttl && s.db.keys == map[FIRST.UK() := FIRST_ROW.(expires := ttl)]
      && s.txs == map[2 := Waiting(TWIN, 6, ttl)]
      && 1 in s.db.products && s.db.products[1].stock == 8
      && |s.done| == 2 && IsPurchase(s.done[1]) && s.done[1].call == CreateOrder(FIRST, 5) && s.done[1].start == 0
  {
    run := FirstBuys(ttl);
    run := Extend(ttl, run, Tick(ttl));
    run := Extend(ttl, run, Begin(2, CreateOrder(TWIN, 6)));
  }

  // A purge that deletes one expired key row, which nobody holds.
  lemma PurgeRowOf(ttl: nat, run: seq<State>, t: nat, uk: UserKey) returns (longer: seq<State>)
    requires Behavior(ttl, run) && t !in Final(run).txs && KeyFree(Final(run), t, uk)
    requires uk in Final(run).db.keys && Final(run).db.keys[uk].expires < Final(run).now
    ensures Behavior(ttl, longer)
    ensures var s, s' := Final(run), Final(longer);
      && s' == s.(db := s.db.(keys := s.db.keys - {uk}), done := s'.done)
      && |s'.done| == |s.done| + 1 && s'.done[..|s.done|] == s.done
  {
    longer := Extend(ttl, run, Begin(t, Purge({})));
    assert forall u :: u in Final(longer).txs && u != t ==> Final(longer).txs[u] == Final(run).txs[u];
    assert Final(longer).txs - {t} == Final(run).txs && Final(longer).ids == Final(run).ids;
    longer := PurgeCompletes(ttl, longer, t, {uk});
  }

  // One tick later the key row has expired and is purged, while the twin still waits to claim.
  lemma PurgeFirst(ttl: nat) returns (run: seq<State>)
    ensures Behavior(ttl, run)
    ensures var s := Final(run);
      && s.now == ttl + 1 && s.db.keys == map[] && s.txs == map[2 := Waiting(TWIN, 6, ttl)]
      && 1 in s.db.products && s.db.products[1].stock == 8
      && |s.done| == 3 && IsPurchase(s.done[1]) && s.done[1].call == CreateOrder(FIRST, 5) && s.done[1].start == 0
  {
    run := TwinBegins(ttl);
    run := Extend(ttl, run, Tick(1));
    run := PurgeRowOf(ttl, run, 3, FIRST.UK());
  }

  // For every TTL, two purchases under one key, the second by a transaction that began before the first one's
  // key row expired and stalled for a single tick.
  lemma LaterStartIsNotLate(ttl: nat) returns (run: seq<State>, i: nat, j: nat)
    ensures Behavior(ttl, run) && i < j < |Final(run).done|
    ensures var done := Final(run).done;
      && IsPurchase(done[i]) && IsPurchase(done[j]) && SameKey(done[i], done[j])
      && done[j].start == done[i].start + ttl && done[j].claimAt == done[j].start + 1
  {
    run := PurgeFirst(ttl);
    run := PurchaseCompletes(ttl, run, 2);
    i, j := 1, 3;
    assert Final(run).done[1] == Final(run).done[..3][1];
  }

  /* ---- Exactly-once, counted from a transaction's start ---- */

  // The k-th call is a purge that deleted the row of uk.
  predicate PurgesRow(done: seq<Committed>, ttl: nat, k: nat, uk: UserKey) {
    && k < |done| && done[k].call.Purge? && uk in Serial(done[..k], ttl).keys
    && uk in done[k].call.expired && Serial(done[..k], ttl).keys[uk].expires < done[k].start
  }

  // One call on a key row: only a purge deletes it, and a purchase replaces it by one that expires later.
  lemma CallKeepsRow(db: Db, c: Committed, ttl: nat, uk: UserKey)
    requires c.outcome == Atomic(db, c.call, c.start, ttl).outcome && uk in db.keys
    ensures var db' := Atomic(db, c.call, c.start, ttl).db;
      if uk in db'.keys then db.keys[uk].expires <= db'.keys[uk].expires
      else c.call.Purge? && uk in c.call.expired && db.keys[uk].expires < c.start
  {
  }

  // Until a purge deletes it, a key row expires no earlier than any purchase made under the key.
  lemma {:induction false} KeptUntilPurged(done: seq<Committed>, ttl: nat, i: nat) returns (k: nat)
    requires Outcomes(done, ttl) && i < |done| && IsPurchase(done[i])
    ensures var uk := done[i].call.req.UK();
      && i < k <= |done|
      && (k < |done| ==> PurgesRow(done, ttl, k, uk))
      && uk in Serial(done[..k], ttl).keys && done[i].start + ttl <= Serial(done[..k], ttl).keys[uk].expires
    decreases |done|
  {
    var n := |done| - 1;
    var uk := done[i].call.req.UK();
    assert OutcomeAt(done, ttl, n) && done[..|done|] == done;
    if i == n {
      k := |done|;
    } else {
      OutcomesBefore(done, ttl, n);
      k := KeptUntilPurged(done[..n], ttl, i);
      assert done[..n][..k] == done[..k];
      if k == n {
        CallKeepsRow(Serial(done[..n], ttl), done[n], ttl, uk);
        k := if uk in Serial(done, ttl).keys then |done| else n;
      }
    }
  }

  // Two purchases under one key whose transactions began within the TTL: a purge that began after the earlier
  // row's expiry deleted the row in between.
  lemma StartWithinTTLNeedsPurge(ttl: nat, run: seq<State>, i: nat, j: nat) returns (k: nat)
    requires Behavior(ttl, run)
    requires i < j < |Final(run).done|
    requires IsPurchase(Final(run).done[i]) && IsPurchase(Final(run).done[j])
    requires SameKey(Final(run).done[i], Final(run).done[j])
    requires Final(run).done[j].start <= Final(run).done[i].start + ttl
    ensures var done, uk := Final(run).done, Final(run).done[i].call.req.UK();
      && i < k < j && PurgesRow(done, ttl, k, uk)
      && done[j].start <= done[i].start + ttl <= Serial(done[..k], ttl).keys[uk].expires < done[k].start
  {
    var done := Final(run).done;
    ReachableInv(ttl, run);
    assert OutcomeAt(done, ttl, j);
    OutcomesBefore(done, ttl, j);
    k := KeptUntilPurged(done[..j], ttl, i);
    assert done[..j][..k] == done[..k];
  }

  // Of two purchases under one key, the later began after the earlier one's row had expired.
  predicate StartsSeparated(done: seq<Committed>, ttl: nat) {
    forall i, j :: 0 <= i < j < |done| && IsPurchase(done[i]) && IsPurchase(done[j]) && SameKey(done[i], done[j])
      ==> done[i].start + ttl < done[j].start
  }

  // No purchase began while a row of its key was unexpired that a purge then deleted ahead of its claim.
  predicate PurgesHideNothing(done: seq<Committed>, ttl: nat) {
    forall j, k :: 0 <= k < j < |done| && IsPurchase(done[j]) && PurgesRow(done, ttl, k, done[j].call.req.UK())
      ==> Serial(done[..k], ttl).keys[done[j].call.req.UK()].expires < done[j].start
  }

  // Exactly-once counted from the start of the transactions holds of a run exactly when no purge took an
  // unexpired row away from a transaction that had already begun.
  lemma StartsSeparatedExactlyWhen(ttl: nat, run: seq<State>)
    requires Behavior(ttl, run)
    ensures StartsSeparated(Final(run).done, ttl) <==> PurgesHideNothing(Final(run).done, ttl)
  {
    var done := Final(run).done;
    ReachableInv(ttl, run);
    if StartsSeparated(done, ttl) {
      forall j, k | 0 <= k < j < |done| && IsPurchase(done[j]) && PurgesRow(done, ttl, k, done[j].call.req.UK())
        ensures Serial(done[..k], ttl).keys[done[j].call.req.UK()].expires < done[j].start
      {
        OutcomesBefore(done, ttl, k);
        var i := KeyRowHasPurchase(done[..k], ttl, done[j].call.req.UK());
      }
    } else {
      var i, j :| 0 <= i < j < |done| && IsPurchase(done[i]) && IsPurchase(done[j]) && SameKey(done[i], done[j])
        && done[j].start <= done[i].start + ttl;
      var k := StartWithinTTLNeedsPurge(ttl, run, i, j);
    }
  }
}
