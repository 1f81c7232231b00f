/**
 What each call of the store comes to, in the terms of its request: first run alone, then in every run of
 concurrent calls, where the tables and the event log can be read off the committed requests.
 */
module CallEffects {
  import opened Domain
  import opened Store
  import opened Transactions
  import opened OrderGuarantees

  /* ---- Run alone ---- */

  // A product is saved exactly when it is new and fits the columns, as it was given, at version 1.
  lemma SaveAlone(db: Db, p: Product, e: Uuid, start: nat, ttl: nat)
    ensures var Effect(db', outcome) := Atomic(db, Save(p, e), start, ttl);
      && (if p.id !in db.products && |p.name| <= 100 && p.price.minorAmount > 0 && 0 <= p.stock <= 2147483647
          then
            var row := Product(p.id, p.name, p.price, p.stock, 1);
            && outcome == Done(Some(row))
            && db' == Db(db.products[p.id := row], db.orders, db.keys,
                         db.log + [Event(e, Created, p.id, 1, 0, p.stock)])
          else outcome == Failed(ConstraintViolation) && db' == db)
  {
  }

  // An update changes name and price to what was asked for, counts the version up, and leaves the stock.
  lemma UpdateAlone(db: Db, id: Uuid, name: string, price: Money, e: Uuid, start: nat, ttl: nat)
    requires id in db.products ==> db.products[id].id == id
    ensures var Effect(db', outcome) := Atomic(db, Update(id, name, price, e), start, ttl);
      && (outcome == Failed(NotFound) <==> id !in db.products)
      && (outcome == Failed(ConstraintViolation) <==> id in db.products && !(|name| <= 100 && price.minorAmount > 0))
      && (if id in db.products && |name| <= 100 && price.minorAmount > 0
          then
            var p := db.products[id];
            var row := Product(id, name, price, p.stock, p.version + 1);
            && outcome == Done(Some(row))
            && db' == Db(db.products[id := row], db.orders, db.keys,
                         db.log + [Event(e, Updated, id, p.version + 1, 0, p.stock)])
          else outcome.Failed? && db' == db)
  {
  }

  // A delete needs a product that no order references.
  lemma DeleteAlone(db: Db, id: Uuid, e: Uuid, start: nat, ttl: nat)
    requires id in db.products ==> db.products[id].id == id
    ensures var Effect(db', outcome) := Atomic(db, Delete(id, e), start, ttl);
      var used := exists o :: o in db.orders && db.orders[o].productID == id;
      && (outcome == Failed(NotFound) <==> id !in db.products)
      && (outcome == Failed(ProductInUse) <==> id in db.products && used)
      && (if id in db.products && !used
          then
            && outcome == Done(None)
            && db' == Db(db.products - {id}, db.orders, db.keys,
                         db.log + [Event(e, Deleted, id, db.products[id].version + 1, 0, 0)])
          else outcome.Failed? && db' == db)
  {
  }

  // An order under a key that is new, or expired before the transaction began, buys exactly when the stock lasts.
  lemma PurchaseAlone(db: Db, req: Request, e: Uuid, start: nat, ttl: nat)
    requires var uk := UserKey(req.userID, req.key); uk !in db.keys || db.keys[uk].expires < start
    requires req.productID in db.products ==> db.products[req.productID].id == req.productID
    ensures var Effect(db', outcome) := Atomic(db, CreateOrder(req, e), start, ttl);
      && (outcome == Failed(NotFound) <==> req.productID !in db.products)
      && (outcome == Failed(InsufficientStock) <==>
          req.productID in db.products && db.products[req.productID].stock < req.quantity)
      && (if req.productID in db.products && req.quantity <= db.products[req.productID].stock
             && 0 < req.quantity && req.orderID !in db.orders
          then
            var p := db.products[req.productID];
            var order := Order(req.orderID, req.userID, req.productID, req.quantity, p.price, start);
            var left := p.stock - req.quantity;
            && outcome == Ordered(order, false)
            && db' == Db(db.products[req.productID := Product(p.id, p.name, p.price, left, p.version + 1)],
                         db.orders[req.orderID := order],
                         db.keys[UserKey(req.userID, req.key) :=
                           KeyRow(Fingerprint(req.productID, req.quantity), Some(req.orderID), start + ttl)],
                         db.log + [Event(e, Purchased, req.productID, p.version + 1, req.quantity, left)])
          else outcome.Failed? && db' == db)
  {
  }

  // An order under a key still valid when the transaction began changes nothing: it returns the linked order on an
  // equal payload and a mismatch otherwise.
  lemma ReplayAlone(db: Db, req: Request, e: Uuid, start: nat, ttl: nat)
    requires var uk := UserKey(req.userID, req.key); uk in db.keys && start <= db.keys[uk].expires && KeyInv(db, uk)
    ensures var Effect(db', outcome) := Atomic(db, CreateOrder(req, e), start, ttl);
      var linked := db.orders[db.keys[UserKey(req.userID, req.key)].orderID.value];
      && db' == db
      && (if linked.productID == req.productID && linked.quantity == req.quantity
          then outcome == Ordered(linked, true)
          else outcome == Failed(IdempotencyMismatch))
  {
  }

  // A purge deletes the chosen rows that expired before it began, and touches nothing else.
  lemma PurgeAlone(db: Db, doomed: set<UserKey>, start: nat, ttl: nat, uk: UserKey)
    ensures var Effect(db', outcome) := Atomic(db, Purge(doomed), start, ttl);
      && outcome == Done(None) && db' == Db(db.products, db.orders, db'.keys, db.log)
      && (uk in db'.keys <==> uk in db.keys && !(uk in doomed && db.keys[uk].expires < start))
      && (uk in db'.keys ==> db'.keys[uk] == db.keys[uk])
  {
  }

  /* ---- In every run: names and prices ---- */

  // A committed call that says what a product is called and costs.
  predicate Describes(c: Committed, id: Uuid) {
    (c.call.Save? && c.call.product.id == id) || (c.call.Update? && c.call.id == id)
  }

  function NameIn(c: Committed): string
    requires c.call.Save? || c.call.Update?
  {
    if c.call.Save? then c.call.product.name else c.call.name
  }

  function PriceIn(c: Committed): Money
    requires c.call.Save? || c.call.Update?
  {
    if c.call.Save? then c.call.product.price else c.call.price
  }

  predicate NewestDescription(done: seq<Committed>, id: Uuid, k: nat) {
    k < |done| && Describes(done[k], id) && forall j :: k < j < |done| ==> !Describes(done[j], id)
  }

  predicate Succeeded(done: seq<Committed>) {
    forall i :: 0 <= i < |done| ==> !done[i].outcome.Failed?
  }

  lemma CallOnDescription(db: Db, c: Committed, ttl: nat, id: Uuid)
    requires c.outcome == Atomic(db, c.call, c.start, ttl).outcome && !c.outcome.Failed?
    requires id in Atomic(db, c.call, c.start, ttl).db.products
    ensures var row := Atomic(db, c.call, c.start, ttl).db.products[id];
      if Describes(c, id) then row.name == NameIn(c) && row.price == PriceIn(c)
      else id in db.products && row.name == db.products[id].name && row.price == db.products[id].price
  {
  }

  lemma {:induction false} DescriptionOfRow(done: seq<Committed>, ttl: nat, id: Uuid) returns (k: nat)
    requires Outcomes(done, ttl) && Succeeded(done) && id in Serial(done, ttl).products
    ensures NewestDescription(done, id, k)
    ensures Serial(done, ttl).products[id].name == NameIn(done[k])
    ensures Serial(done, ttl).products[id].price == PriceIn(done[k])
    decreases |done|
  {
    var n := |done| - 1;
    assert OutcomeAt(done, ttl, n);
    CallOnDescription(Serial(done[..n], ttl), done[n], ttl, id);
    if Describes(done[n], id) {
      k := n;
    } else {
      OutcomesBefore(done, ttl, n);
      k := DescriptionOfRow(done[..n], ttl, id);
    }
  }

  lemma RunSucceeded(ttl: nat, run: seq<State>)
    requires Behavior(ttl, run)
    ensures Outcomes(Final(run).done, ttl) && Succeeded(Final(run).done)
    ensures Final(run).db == Serial(Final(run).done, ttl)
  {
    ReachableInv(ttl, run);
    forall i | 0 <= i < |Final(run).done| ensures !Final(run).done[i].outcome.Failed? {
      OnlySuccessesCommit(ttl, run, i);
    }
  }

  // A product is called and costs what the newest committed save or update of it said.
  lemma ProductAsDescribed(ttl: nat, run: seq<State>, id: Uuid) returns (k: nat)
    requires Behavior(ttl, run) && id in Final(run).db.products
    ensures NewestDescription(Final(run).done, id, k)
    ensures Final(run).db.products[id].name == NameIn(Final(run).done[k])
    ensures Final(run).db.products[id].price == PriceIn(Final(run).done[k])
  {
    RunSucceeded(ttl, run);
    k := DescriptionOfRow(Final(run).done, ttl, id);
  }

  /* ---- In every run: orders ---- */

  // A purchase's order is what was asked for, at the price that the newest save or update before it had set.
  lemma OrderAsRequested(ttl: nat, run: seq<State>, j: nat) returns (k: nat)
    requires Behavior(ttl, run) && j < |Final(run).done| && IsPurchase(Final(run).done[j])
    ensures var done, req := Final(run).done, Final(run).done[j].call.req;
      && NewestDescription(done[..j], req.productID, k)
      && done[j].outcome.order ==
         Order(req.orderID, req.userID, req.productID, req.quantity, PriceIn(done[k]), done[j].start)
  {
    var done := Final(run).done;
    RunSucceeded(ttl, run);
    assert OutcomeAt(done, ttl, j);
    OutcomesBefore(done, ttl, j);
    k := DescriptionOfRow(done[..j], ttl, done[j].call.req.productID);
  }

  // And no order is in the table that a purchase did not place.
  lemma {:induction false} OrderHasPurchase(done: seq<Committed>, ttl: nat, o: Uuid) returns (k: nat)
    requires Outcomes(done, ttl) && o in Serial(done, ttl).orders
    ensures k < |done| && IsPurchase(done[k]) && done[k].call.req.orderID == o
    ensures Serial(done, ttl).orders[o] == done[k].outcome.order
    decreases |done|
  {
    var n := |done| - 1;
    assert OutcomeAt(done, ttl, n);
    if IsPurchase(done[n]) && done[n].call.req.orderID == o {
      k := n;
    } else {
      OutcomesBefore(done, ttl, n);
      k := OrderHasPurchase(done[..n], ttl, o);
    }
  }

  /* ---- In every run: the event log ---- */

  // The event tells of the call: its id, its kind, its product and the units bought.
  predicate TellsOf(e: Event, c: Committed) {
    match c.call
    case Save(p, id) => e.eventID == id && e.kind == Created && e.productID == p.id && e.quantity == 0
    case Update(product, _, _, id) => e.eventID == id && e.kind == Updated && e.productID == product && e.quantity == 0
    case Delete(product, id) => e.eventID == id && e.kind == Deleted && e.productID == product && e.quantity == 0
    case CreateOrder(req, id) =>
      e.eventID == id && e.kind == Purchased && e.productID == req.productID && e.quantity == req.quantity
    case Purge(_) => false
  }

  // The committed calls that changed a product, in commit order: all but purges and replays.
  function Changes(done: seq<Committed>): seq<Committed> {
    if done == [] then []
    else
      var before, c := Changes(done[..|done| - 1]), done[|done| - 1];
      if c.call.Purge? || (c.outcome.Ordered? && c.outcome.replayed) then before else before + [c]
  }

  predicate LogTells(log: seq<Event>, changes: seq<Committed>) {
    |log| == |changes| && forall i :: 0 <= i < |log| ==> TellsOf(log[i], changes[i])
  }

  predicate RowIds(db: Db) {
    forall id :: id in db.products ==> db.products[id].id == id
  }

  lemma CallOnLog(db: Db, c: Committed, ttl: nat)
    requires c.outcome == Atomic(db, c.call, c.start, ttl).outcome && !c.outcome.Failed? && RowIds(db)
    ensures var db' := Atomic(db, c.call, c.start, ttl).db;
      && RowIds(db')
      && (if c.call.Purge? || (c.outcome.Ordered? && c.outcome.replayed) then db'.log == db.log
          else |db'.log| == |db.log| + 1 && db'.log[..|db.log|] == db.log && TellsOf(db'.log[|db.log|], c))
  {
  }

  lemma {:induction false} LogOfCalls(done: seq<Committed>, ttl: nat)
    requires Outcomes(done, ttl) && Succeeded(done)
    ensures LogTells(Serial(done, ttl).log, Changes(done)) && RowIds(Serial(done, ttl))
    decreases |done|
  {
    if done != [] {
      var n := |done| - 1;
      OutcomesBefore(done, ttl, n);
      LogOfCalls(done[..n], ttl);
      assert OutcomeAt(done, ttl, n);
      var db := Serial(done[..n], ttl);
      CallOnLog(db, done[n], ttl);
      assert forall i :: 0 <= i < |db.log| ==> Serial(done, ttl).log[i] == Serial(done, ttl).log[..|db.log|][i];
    }
  }

  // The log holds one event per committed change, in commit order, and tells of it.
  lemma LogTellsOfChanges(ttl: nat, run: seq<State>)
    requires Behavior(ttl, run)
    ensures LogTells(Final(run).db.log, Changes(Final(run).done))
  {
    RunSucceeded(ttl, run);
    LogOfCalls(Final(run).done, ttl);
  }
}
