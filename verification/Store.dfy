/**
 The tables, the SQL statements that change them, and each store call run alone.
 Atomic is the reference meaning of a call; class Postgres runs a call statement by statement.
 */
module Store {
  import opened Domain
  import opened Sums

  datatype UserKey = UserKey(userID: Uuid, key: string)

  // The SHA-256 of product id and quantity, taken to be injective.
  datatype Fingerprint = Fingerprint(productID: Uuid, quantity: int)

  datatype KeyRow = KeyRow(hash: Fingerprint, orderID: Option<Uuid>, expires: nat)

  // The committed tables; log is every event ever inserted into the outbox, in commit order.
  datatype Db = Db(products: map<Uuid, Product>, orders: map<Uuid, Order>, keys: map<UserKey, KeyRow>, log: seq<Event>)

  datatype Request = Request(orderID: Uuid, userID: Uuid, productID: Uuid, quantity: int, key: string) {
    function UK(): UserKey { UserKey(userID, key) }
    function Hash(): Fingerprint { Fingerprint(productID, quantity) }
  }

  datatype Call =
    | Save(product: Product, eventID: Uuid)
    | Update(id: Uuid, name: string, price: Money, eventID: Uuid)
    | Delete(id: Uuid, eventID: Uuid)
    | CreateOrder(req: Request, eventID: Uuid)
    | Purge(expired: set<UserKey>)

  // The one product row a call writes, if any.
  function Target(call: Call): Option<Uuid> {
    match call
    case Save(p, _) => Some(p.id)
    case Update(id, _, _, _) => Some(id)
    case Delete(id, _) => Some(id)
    case CreateOrder(req, _) => Some(req.productID)
    case Purge(_) => None
  }

  datatype Error = NotFound | InsufficientStock | ProductInUse | IdempotencyMismatch | NoRows | ConstraintViolation

  datatype Outcome =
    | Done(product: Option<Product>)
    | Ordered(order: Order, replayed: bool)
    | Failed(error: Error)

  datatype Effect = Effect(db: Db, outcome: Outcome)

  const EMPTY := Db(map[], map[], map[], [])
  const MAX_INT32 := 0x7fff_ffff
  const MAX_NAME := 100

  /* ---- Statements ---- */

  predicate Storable(name: string, price: Money) {
    |name| <= MAX_NAME && price.minorAmount > 0
  }

  // The upsert claims an absent row or one that expired before the transaction began.
  predicate Claimable(db: Db, uk: UserKey, start: nat) {
    uk !in db.keys || db.keys[uk].expires < start
  }

  function ClaimedRow(req: Request, start: nat, ttl: nat): KeyRow {
    KeyRow(req.Hash(), None, start + ttl)
  }

  predicate InStock(db: Db, req: Request) {
    req.productID in db.products && db.products[req.productID].stock >= req.quantity
  }

  function Bought(p: Product, qty: int): Product {
    p.(stock := p.stock - qty, version := p.version + 1)
  }

  function Rewritten(p: Product, name: string, price: Money): Product {
    p.(name := name, price := price, version := p.version + 1)
  }

  function OrderRow(req: Request, price: Money, start: nat): Order {
    Order(req.orderID, req.userID, req.productID, req.quantity, price, start)
  }

  // The key rows left when those of doomed that expired before start are deleted.
  function Purged(keys: map<UserKey, KeyRow>, doomed: set<UserKey>, start: nat): map<UserKey, KeyRow> {
    map uk | uk in keys && !(uk in doomed && keys[uk].expires < start) :: keys[uk]
  }

  // Delete returns version + 1 and nothing else of the row.
  function DeletedProduct(p: Product): Product {
    Product(p.id, "", Money(0, PLN), 0, p.version + 1)
  }

  predicate Referenced(orders: map<Uuid, Order>, id: Uuid) {
    exists o :: o in orders && orders[o].productID == id
  }

  /* ---- Calls, run alone ---- */

  function Atomic(db: Db, call: Call, start: nat, ttl: nat): Effect {
    match call
    case Save(p, eventID) =>
      if p.id in db.products || !Storable(p.name, p.price) || !(0 <= p.stock <= MAX_INT32)
      then Effect(db, Failed(ConstraintViolation))
      else
        var row := p.(version := 1);
        Effect(db.(products := db.products[p.id := row], log := db.log + [NewEvent(eventID, Created, row)]),
               Done(Some(row)))
    case Update(id, name, price, eventID) =>
      if id !in db.products then Effect(db, Failed(NotFound))
      else if !Storable(name, price) then Effect(db, Failed(ConstraintViolation))
      else
        var row := Rewritten(db.products[id], name, price);
        Effect(db.(products := db.products[id := row], log := db.log + [NewEvent(eventID, Updated, row)]),
               Done(Some(row)))
    case Delete(id, eventID) =>
      if id !in db.products then Effect(db, Failed(NotFound))
      else if Referenced(db.orders, id) then Effect(db, Failed(ProductInUse))
      else
        var gone := DeletedProduct(db.products[id]);
        Effect(db.(products := db.products - {id}, log := db.log + [NewEvent(eventID, Deleted, gone)]),
               Done(None))
    case CreateOrder(req, eventID) =>
      if Claimable(db, req.UK(), start) then FreshOrder(db, req, eventID, start, ttl) else ReplayedOrder(db, req)
    case Purge(expired) =>
      Effect(db.(keys := Purged(db.keys, expired, start)), Done(None))
  }

  function FreshOrder(db: Db, req: Request, eventID: Uuid, start: nat, ttl: nat): Effect {
    if req.productID !in db.products then Effect(db, Failed(NotFound))
    else if !InStock(db, req) then Effect(db, Failed(InsufficientStock))
    else if req.quantity <= 0 || req.orderID in db.orders then Effect(db, Failed(ConstraintViolation))
    else
      var row := Bought(db.products[req.productID], req.quantity);
      var order := OrderRow(req, row.price, start);
      Effect(Db(db.products[req.productID := row],
                db.orders[req.orderID := order],
                db.keys[req.UK() := ClaimedRow(req, start, ttl).(orderID := Some(req.orderID))],
                db.log + [NewPurchased(eventID, row, req.quantity)]),
             Ordered(order, false))
  }

  function ReplayedOrder(db: Db, req: Request): Effect
    requires req.UK() in db.keys
  {
    var row := db.keys[req.UK()];
    if row.orderID.None? || row.orderID.value !in db.orders then Effect(db, Failed(NoRows))
    else if row.hash != req.Hash() then Effect(db, Failed(IdempotencyMismatch))
    else Effect(db, Ordered(db.orders[row.orderID.value], true))
  }

  /* ---- What every committed state satisfies ---- */

  function EventsOf(log: seq<Event>, id: Uuid): seq<Event> {
    if log == [] then []
    else
      var rest, last := EventsOf(log[..|log| - 1], id), log[|log| - 1];
      if last.productID == id then rest + [last] else rest
  }

  // The stock that the created stock and the purchased quantities amount to.
  function FoldStock(events: seq<Event>): int {
    if events == [] then 0
    else
      var before, e := FoldStock(events[..|events| - 1]), events[|events| - 1];
      match e.kind
      case Created => e.stock
      case Purchased => before - e.quantity
      case _ => before
  }

  predicate GoodEvent(events: seq<Event>, i: nat)
    requires i < |events|
  {
    && events[i].version == i + 1
    && (events[i].kind.Created? <==> i == 0)
    && (if events[i].kind.Deleted? then i == |events| - 1 && events[i].stock == 0
        else events[i].stock == FoldStock(events[..i + 1]))
  }

  // Versions 1..n once each, created first, deleted last, every other event recording the folded stock.
  predicate GoodHistory(events: seq<Event>) {
    forall i :: 0 <= i < |events| ==> GoodEvent(events, i)
  }

  predicate Alive(events: seq<Event>) {
    events != [] && !events[|events| - 1].kind.Deleted?
  }

  function Units(orders: map<Uuid, Order>, id: Uuid): map<Uuid, nat> {
    map o | o in orders && orders[o].productID == id && orders[o].quantity > 0 :: orders[o].quantity
  }

  ghost function Sold(orders: map<Uuid, Order>, id: Uuid): nat {
    Sum(Units(orders, id))
  }

  // The event log determines the row, and stock is conserved.
  ghost predicate ProductInv(db: Db, id: Uuid) {
    var events := EventsOf(db.log, id);
    && GoodHistory(events)
    && (id in db.products <==> Alive(events))
    && (id in db.products ==>
        && db.products[id].id == id
        && db.products[id].version == |events|
        && db.products[id].stock == FoldStock(events)
        && db.products[id].stock >= 0
        && events[0].stock == db.products[id].stock + Sold(db.orders, id))
  }

  predicate OrderInv(db: Db, o: Uuid)
    requires o in db.orders
  {
    db.orders[o].id == o && db.orders[o].productID in db.products && db.orders[o].quantity > 0
  }

  // Every committed key row can be replayed.
  predicate KeyInv(db: Db, uk: UserKey)
    requires uk in db.keys
  {
    var row := db.keys[uk];
    && row.orderID.Some? && row.orderID.value in db.orders
    && var o := db.orders[row.orderID.value];
       o.userID == uk.userID && row.hash == Fingerprint(o.productID, o.quantity)
  }

  ghost predicate DbInv(db: Db) {
    && (forall id: Uuid {:trigger EventsOf(db.log, id)} :: ProductInv(db, id))
    && (forall o :: o in db.orders ==> OrderInv(db, o))
    && (forall uk :: uk in db.keys ==> KeyInv(db, uk))
  }

  // The ids a call brings are new: created products and orders get a fresh UUID.
  predicate FreshIds(db: Db, call: Call) {
    match call
    case Save(p, _) => EventsOf(db.log, p.id) == []
    case CreateOrder(req, _) => req.orderID !in db.orders
    case _ => true
  }

  lemma {:induction false} EventsAreOfProduct(log: seq<Event>, id: Uuid)
    ensures forall i :: 0 <= i < |EventsOf(log, id)| ==> EventsOf(log, id)[i].productID == id
  {
    if log != [] {
      EventsAreOfProduct(log[..|log| - 1], id);
    }
  }

  lemma EventsAppend(log: seq<Event>, e: Event, id: Uuid)
    ensures EventsOf(log + [e], id) == if e.productID == id then EventsOf(log, id) + [e] else EventsOf(log, id)
  {
    assert (log + [e])[..|log|] == log;
  }

  lemma FoldAppend(events: seq<Event>, e: Event)
    ensures FoldStock(events + [e]) ==
            match e.kind
            case Created => e.stock
            case Purchased => FoldStock(events) - e.quantity
            case _ => FoldStock(events)
  {
    assert (events + [e])[..|events|] == events;
  }

  lemma HistoryAppend(events: seq<Event>, e: Event)
    requires GoodHistory(events) && (events == [] || Alive(events))
    requires e.version == |events| + 1 && (e.kind.Created? <==> events == [])
    requires if e.kind.Deleted? then e.stock == 0 else e.stock == FoldStock(events + [e])
    ensures GoodHistory(events + [e])
  {
    var longer := events + [e];
    assert longer[..|events| + 1] == longer;
    forall i | 0 <= i < |events| ensures GoodEvent(longer, i) {
      assert GoodEvent(events, i);
      assert longer[..i + 1] == events[..i + 1];
    }
  }

  lemma SoldAppend(orders: map<Uuid, Order>, o: Order, id: Uuid)
    requires o.id !in orders && o.quantity > 0
    ensures Sold(orders[o.id := o], id) == Sold(orders, id) + if o.productID == id then o.quantity else 0
  {
    if o.productID == id {
      assert Units(orders[o.id := o], id) == Units(orders, id)[o.id := o.quantity];
      SumWith(Units(orders, id), o.id, o.quantity);
    } else {
      assert Units(orders[o.id := o], id) == Units(orders, id);
    }
  }

  lemma NothingSold(db: Db, id: Uuid)
    requires (forall o :: o in db.orders ==> OrderInv(db, o)) && id !in db.products
    ensures Sold(db.orders, id) == 0
  {
    assert Units(db.orders, id) == map[];
  }

  // An event about another product leaves this one alone.
  lemma OtherEventKeepsProduct(db: Db, db': Db, e: Event, id: Uuid)
    requires ProductInv(db, id) && db'.log == db.log + [e] && e.productID != id
    requires id in db.products <==> id in db'.products
    requires id in db.products ==> db.products[id] == db'.products[id]
    requires Sold(db.orders, id) == Sold(db'.orders, id)
    ensures ProductInv(db', id)
  {
    EventsAppend(db.log, e, id);
  }

  // An event about this product fits when it continues the history and records the row it leaves.
  lemma OwnEventKeepsProduct(db: Db, db': Db, e: Event)
    requires ProductInv(db, e.productID) && db'.log == db.log + [e]
    requires var events := EventsOf(db.log, e.productID);
      && (if e.kind.Created? then events == [] else e.productID in db.products)
      && e.version == |events| + 1
      && (e.kind.Deleted? ==> e.stock == 0 && e.productID !in db'.products)
      && (!e.kind.Deleted? ==>
          && e.productID in db'.products && db'.products[e.productID].id == e.productID
          && db'.products[e.productID].version == e.version && db'.products[e.productID].stock == e.stock >= 0)
      && (e.kind.Created? ==> Sold(db'.orders, e.productID) == 0)
      && (e.kind.Updated? ==> Sold(db'.orders, e.productID) == Sold(db.orders, e.productID)
                              && e.stock == db.products[e.productID].stock)
      && (e.kind.Purchased? ==> Sold(db'.orders, e.productID) == Sold(db.orders, e.productID) + e.quantity
                                && e.stock == db.products[e.productID].stock - e.quantity)
    ensures ProductInv(db', e.productID)
  {
    var events := EventsOf(db.log, e.productID);
    EventsAppend(db.log, e, e.productID);
    FoldAppend(events, e);
    HistoryAppend(events, e);
  }

  lemma AtomicKeepsProduct(db: Db, call: Call, start: nat, ttl: nat, id: Uuid)
    requires DbInv(db) && FreshIds(db, call)
    ensures ProductInv(Atomic(db, call, start, ttl).db, id)
  {
    var db' := Atomic(db, call, start, ttl).db;
    assert ProductInv(db, id);
    if db' != db && !call.Purge? {
      assert ProductInv(db, Target(call).value);
      var e := db'.log[|db.log|];
      if call.CreateOrder? {
        SoldAppend(db.orders, OrderRow(call.req, db.products[e.productID].price, start), id);
      } else if call.Save? && e.productID == id {
        NothingSold(db, id);
      }
      if e.productID == id {
        OwnEventKeepsProduct(db, db', e);
      } else {
        OtherEventKeepsProduct(db, db', e, id);
      }
    }
  }

  lemma AtomicKeepsOrders(db: Db, call: Call, start: nat, ttl: nat)
    requires DbInv(db) && FreshIds(db, call)
    ensures var db' := Atomic(db, call, start, ttl).db;
      && (forall o :: o in db.orders ==> o in db'.orders && db'.orders[o] == db.orders[o])
      && (forall o :: o in db'.orders ==> OrderInv(db', o))
      && (forall uk :: uk in db'.keys ==> KeyInv(db', uk))
  {
    var db' := Atomic(db, call, start, ttl).db;
    forall o | o in db'.orders ensures OrderInv(db', o) {
      assert o in db.orders ==> OrderInv(db, o);
    }
    forall uk | uk in db'.keys ensures KeyInv(db', uk) {
      assert uk in db.keys ==> KeyInv(db, uk);
    }
  }

  lemma AtomicKeepsDbInv(db: Db, call: Call, start: nat, ttl: nat)
    requires DbInv(db) && FreshIds(db, call)
    ensures DbInv(Atomic(db, call, start, ttl).db)
  {
    var db' := Atomic(db, call, start, ttl).db;
    forall id: Uuid ensures ProductInv(db', id) {
      AtomicKeepsProduct(db, call, start, ttl, id);
    }
    AtomicKeepsOrders(db, call, start, ttl);
  }

  lemma EmptyDbInv()
    ensures DbInv(EMPTY)
  {
    forall id: Uuid ensures ProductInv(EMPTY, id) {
      assert EventsOf(EMPTY.log, id) == [];
    }
  }
}
