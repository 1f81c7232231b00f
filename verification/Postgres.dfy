/** The store's methods: each call as its statements in order, undone as a whole when one fails. */
module PostgresStore {
  import opened Domain
  import opened Store

  class Postgres {
    var db: Db
    const idempotencyTTL: nat

    constructor (idempotencyTTL: nat)
      ensures db == EMPTY && this.idempotencyTTL == idempotencyTTL
    {
      db, this.idempotencyTTL := EMPTY, idempotencyTTL;
    }

    method InsertOutbox(e: Event)
      modifies this`db
      ensures db == old(db).(log := old(db).log + [e])
    {
      db := db.(log := db.log + [e]);
    }

    method Save(p: Product, eventID: Uuid, start: nat) returns (outcome: Outcome)
      modifies this`db
      ensures Effect(db, outcome) == Atomic(old(db), Call.Save(p, eventID), start, idempotencyTTL)
    {
      if p.id in db.products || !Storable(p.name, p.price) || p.stock < 0 || MAX_INT32 < p.stock {
        return Failed(ConstraintViolation);
      }
      var row := p.(version := 1);
      db := db.(products := db.products[p.id := row]);
      InsertOutbox(NewEvent(eventID, Created, row));
      outcome := Done(Some(row));
    }

    method Update(id: Uuid, name: string, price: Money, eventID: Uuid, start: nat) returns (outcome: Outcome)
      modifies this`db
      ensures Effect(db, outcome) == Atomic(old(db), Call.Update(id, name, price, eventID), start, idempotencyTTL)
    {
      if id !in db.products {
        return Failed(NotFound);
      }
      if !Storable(name, price) {
        return Failed(ConstraintViolation);
      }
      var row := Rewritten(db.products[id], name, price);
      db := db.(products := db.products[id := row]);
      InsertOutbox(NewEvent(eventID, Updated, row));
      outcome := Done(Some(row));
    }

    method Delete(id: Uuid, eventID: Uuid, start: nat) returns (outcome: Outcome)
      modifies this`db
      ensures Effect(db, outcome) == Atomic(old(db), Call.Delete(id, eventID), start, idempotencyTTL)
    {
      if id !in db.products {
        return Failed(NotFound);
      }
      if Referenced(db.orders, id) {
        return Failed(ProductInUse);
      }
      var gone := DeletedProduct(db.products[id]);
      db := db.(products := db.products - {id});
      InsertOutbox(NewEvent(eventID, Deleted, gone));
      outcome := Done(None);
    }

    // The upsert of the key row; false means that no row was affected.
    method ClaimKey(req: Request, start: nat) returns (affected: bool)
      modifies this`db
      ensures affected == Claimable(old(db), req.UK(), start)
      ensures db == if affected
                    then old(db).(keys := old(db).keys[req.UK() := ClaimedRow(req, start, idempotencyTTL)])
                    else old(db)
    {
      affected := req.UK() !in db.keys || db.keys[req.UK()].expires < start;
      if affected {
        db := db.(keys := db.keys[req.UK() := ClaimedRow(req, start, idempotencyTTL)]);
      }
    }

    // Decrement, order and event; on failure the caller rolls back.
    method PurchaseTx(req: Request, eventID: Uuid, start: nat) returns (outcome: Outcome)
      modifies this`db
      ensures outcome == FreshOrder(old(db), req, eventID, start, idempotencyTTL).outcome
      ensures outcome.Ordered? ==>
        && outcome.order.id == req.orderID
        && db == FreshOrder(old(db), req, eventID, start, idempotencyTTL).db.(keys := old(db).keys)
    {
      if req.productID !in db.products {
        return Failed(NotFound);
      }
      if db.products[req.productID].stock < req.quantity {
        return Failed(InsufficientStock);
      }
      var row := Bought(db.products[req.productID], req.quantity);
      db := db.(products := db.products[req.productID := row]);
      if req.quantity <= 0 || req.orderID in db.orders {
        return Failed(ConstraintViolation);
      }
      var order := OrderRow(req, row.price, start);
      db := db.(orders := db.orders[req.orderID := order]);
      InsertOutbox(NewPurchased(eventID, row, req.quantity));
      outcome := Ordered(order, false);
    }

    // The stored order of a claimed key, found by joining orders on order_id.
    method Replay(req: Request) returns (outcome: Outcome)
      requires req.UK() in db.keys
      ensures outcome == ReplayedOrder(db, req).outcome
    {
      var row := db.keys[req.UK()];
      if row.orderID.None? || row.orderID.value !in db.orders {
        return Failed(NoRows);
      }
      if row.hash != req.Hash() {
        return Failed(IdempotencyMismatch);
      }
      outcome := Ordered(db.orders[row.orderID.value], true);
    }

    // Claim first, so that a duplicate replays instead of buying twice.
    method CreateOrder(req: Request, eventID: Uuid, start: nat) returns (outcome: Outcome)
      modifies this`db
      ensures Effect(db, outcome) == Atomic(old(db), Call.CreateOrder(req, eventID), start, idempotencyTTL)
    {
      var begin := db;
      var affected := ClaimKey(req, start);
      if !affected {
        outcome := Replay(req);
        return;
      }
      outcome := PurchaseTx(req, eventID, start);
      if outcome.Failed? {
        db := begin;
        return;
      }
      var row := db.keys[req.UK()].(orderID := Some(outcome.order.id));
      db := db.(keys := db.keys[req.UK() := row]);
    }

    method PurgeIdempotencyKeys(start: nat) returns (purged: nat)
      modifies this`db
      ensures db == Atomic(old(db), Purge(old(db).keys.Keys), start, idempotencyTTL).db
      ensures purged + |db.keys| == |old(db).keys|
      ensures forall uk :: uk in db.keys ==> start <= db.keys[uk].expires
    {
      var keys := Purged(db.keys, db.keys.Keys, start);
      assert |db.keys.Keys - keys.Keys| + |keys.Keys| == |db.keys.Keys|;
      purged := |db.keys| - |keys|;
      db := db.(keys := keys);
    }
  }
}
