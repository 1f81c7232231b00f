/**
 Store calls as concurrent transactions at READ COMMITTED: each label is one statement, a commit or a
 rollback. Writes stay pending until commit; row locks are held to the end of the transaction; a statement
 that must wait for a lock is simply not enabled, and then sees the row as committed by the holder.
 */
module Transactions {
  import opened Domain
  import opened Store

  datatype Pc = Begun | Claimed | Conflict | Replayed | RowWritten | OrderWritten | EventWritten | Ready {
    // The key row is locked from the upsert on, whether or not the upsert changed it.
    predicate AfterClaim() { !Begun? }
    predicate Fresh() { Claimed? || RowWritten? || OrderWritten? || EventWritten? || Ready? }
    predicate AfterRow() { RowWritten? || OrderWritten? || EventWritten? || Ready? }
    predicate AfterOrder() { OrderWritten? || EventWritten? || Ready? }
    predicate AfterEvent() { EventWritten? || Ready? }
  }

  // start is the transaction's now(); claimAt is the moment the upsert took effect.
  datatype Tx = Tx(
    call: Call, start: nat, pc: Pc, claimAt: nat,
    key: Option<KeyRow>, row: Option<Product>, order: Option<Order>, event: Option<Event>,
    replay: Option<Order>, purged: set<UserKey>)

  datatype Committed = Committed(call: Call, start: nat, claimAt: nat, outcome: Outcome)

  datatype State = State(
    now: nat,
    db: Db,
    txs: map<nat, Tx>,
    ids: set<Uuid>,             // product and order ids generated so far
    done: seq<Committed>)       // committed calls, in commit order

  datatype Label =
    | Tick(d: nat)
    | Begin(t: nat, call: Call)
    | Claim(t: nat)
    | Replay(t: nat)
    | Purchase(t: nat)
    | InsertOrder(t: nat)
    | WriteRow(t: nat)
    | InsertEvent(t: nat)
    | Link(t: nat)
    | PurgeRow(t: nat, uk: UserKey)
    | Commit(t: nat)
    | Rollback(t: nat)

  function NewIds(call: Call): set<Uuid> {
    match call
    case Save(p, _) => {p.id}
    case CreateOrder(req, _) => {req.orderID}
    case _ => {}
  }

  predicate HoldsKey(tx: Tx, uk: UserKey) {
    uk in tx.purged || (tx.call.CreateOrder? && tx.pc.AfterClaim() && uk == tx.call.req.UK())
  }

  predicate HoldsRow(tx: Tx, id: Uuid) {
    tx.pc.AfterRow() && Target(tx.call) == Some(id)
  }

  predicate KeyFree(s: State, t: nat, uk: UserKey) {
    forall u :: u in s.txs && u != t ==> !HoldsKey(s.txs[u], uk)
  }

  predicate RowFree(s: State, t: nat, id: Uuid) {
    forall u :: u in s.txs && u != t ==> !HoldsRow(s.txs[u], id)
  }

  predicate Committable(tx: Tx) {
    tx.pc.Ready? || tx.pc.Replayed? || tx.call.Purge?
  }

  // The statement of Save, Update or Delete that writes the row, and when it affects a row.
  predicate RowWritable(db: Db, call: Call) {
    match call
    case Save(p, _) => p.id !in db.products && Storable(p.name, p.price) && 0 <= p.stock <= MAX_INT32
    case Update(id, name, price, _) => id in db.products && Storable(name, price)
    case Delete(id, _) => id in db.products && !Referenced(db.orders, id)
    case _ => false
  }

  function WrittenRow(db: Db, call: Call): Product
    requires RowWritable(db, call)
  {
    match call
    case Save(p, _) => p.(version := 1)
    case Update(id, name, price, _) => Rewritten(db.products[id], name, price)
    case Delete(id, _) => DeletedProduct(db.products[id])
  }

  function EventFor(call: Call, row: Product): Event
    requires !call.Purge?
  {
    match call
    case Save(_, e) => NewEvent(e, Created, row)
    case Update(_, _, _, e) => NewEvent(e, Updated, row)
    case Delete(_, e) => NewEvent(e, Deleted, row)
    case CreateOrder(req, e) => NewPurchased(e, row, req.quantity)
  }

  predicate Running(s: State, t: nat, pc: Pc) {
    t in s.txs && s.txs[t].pc == pc
  }

  predicate RunningOrder(s: State, t: nat, pc: Pc) {
    Running(s, t, pc) && s.txs[t].call.CreateOrder?
  }

  predicate Enabled(s: State, l: Label) {
    match l
    case Tick(_) => true
    case Begin(t, call) =>
      t !in s.txs && NewIds(call) !! s.ids && (call.Purge? ==> call.expired == {})
    case Claim(t) => RunningOrder(s, t, Begun) && KeyFree(s, t, s.txs[t].call.req.UK())
    case Replay(t) =>
      && RunningOrder(s, t, Conflict) && s.txs[t].call.req.UK() in s.db.keys
      && ReplayedOrder(s.db, s.txs[t].call.req).outcome.Ordered?
    case Purchase(t) =>
      && RunningOrder(s, t, Claimed)
      && InStock(s.db, s.txs[t].call.req) && RowFree(s, t, s.txs[t].call.req.productID)
    case InsertOrder(t) =>
      && RunningOrder(s, t, RowWritten) && s.txs[t].row.Some?
      && s.txs[t].call.req.quantity > 0 && s.txs[t].call.req.orderID !in s.db.orders
    case WriteRow(t) =>
      && Running(s, t, Begun) && RowWritable(s.db, s.txs[t].call) && RowFree(s, t, Target(s.txs[t].call).value)
    case InsertEvent(t) =>
      && t in s.txs && !s.txs[t].call.Purge? && s.txs[t].row.Some?
      && s.txs[t].pc == if s.txs[t].call.CreateOrder? then OrderWritten else RowWritten
    case Link(t) => RunningOrder(s, t, EventWritten) && s.txs[t].key.Some? && s.txs[t].order.Some?
    case PurgeRow(t, uk) =>
      && Running(s, t, Begun) && s.txs[t].call.Purge?
      && uk in s.db.keys && s.db.keys[uk].expires < s.txs[t].start && KeyFree(s, t, uk)
    case Commit(t) => t in s.txs && Committable(s.txs[t])
    case Rollback(t) => t in s.txs
  }

  // What a transaction's next statement makes of it.
  function Advance(s: State, ttl: nat, l: Label): Tx
    requires Enabled(s, l) && !l.Tick? && !l.Begin? && !l.Commit? && !l.Rollback?
  {
    var tx := s.txs[l.t];
    match l
    case Claim(_) =>
      if Claimable(s.db, tx.call.req.UK(), tx.start)
      then tx.(pc := Claimed, claimAt := s.now, key := Some(ClaimedRow(tx.call.req, tx.start, ttl)))
      else tx.(pc := Conflict)
    case Replay(_) => tx.(pc := Replayed, replay := Some(ReplayedOrder(s.db, tx.call.req).outcome.order))
    case Purchase(_) =>
      tx.(pc := RowWritten, row := Some(Bought(s.db.products[tx.call.req.productID], tx.call.req.quantity)))
    case InsertOrder(_) => tx.(pc := OrderWritten, order := Some(OrderRow(tx.call.req, tx.row.value.price, tx.start)))
    case WriteRow(_) => tx.(pc := RowWritten, row := Some(WrittenRow(s.db, tx.call)))
    case InsertEvent(_) =>
      tx.(pc := if tx.call.CreateOrder? then EventWritten else Ready, event := Some(EventFor(tx.call, tx.row.value)))
    case Link(_) => tx.(pc := Ready, key := Some(tx.key.value.(orderID := Some(tx.order.value.id))))
    case PurgeRow(_, uk) => tx.(purged := tx.purged + {uk})
  }

  // The tables once the pending writes are in.
  function Written(db: Db, tx: Tx): Db {
    Db(if tx.row.None? || Target(tx.call).None? then db.products
       else if tx.call.Delete? then db.products - {tx.call.id}
       else db.products[Target(tx.call).value := tx.row.value],
       if tx.order.None? then db.orders else db.orders[tx.order.value.id := tx.order.value],
       (if tx.key.None? || !tx.call.CreateOrder? then db.keys else db.keys[tx.call.req.UK() := tx.key.value])
         - tx.purged,
       if tx.event.None? then db.log else db.log + [tx.event.value])
  }

  function OutcomeOf(tx: Tx): Outcome {
    if tx.replay.Some? then Ordered(tx.replay.value, true)
    else if tx.order.Some? then Ordered(tx.order.value, false)
    else if tx.call.Delete? then Done(None)
    else Done(tx.row)
  }

  function CallOf(tx: Tx): Call {
    if tx.call.Purge? then Purge(tx.purged) else tx.call
  }

  function Apply(s: State, ttl: nat, l: Label): State
    requires Enabled(s, l)
  {
    match l
    case Tick(d) => s.(now := s.now + d)
    case Begin(t, call) =>
      s.(txs := s.txs[t := Tx(call, s.now, Begun, s.now, None, None, None, None, None, {})],
         ids := s.ids + NewIds(call))
    case Commit(t) =>
      var tx := s.txs[t];
      s.(db := Written(s.db, tx), txs := s.txs - {t},
         done := s.done + [Committed(CallOf(tx), tx.start, tx.claimAt, OutcomeOf(tx))])
    case Rollback(t) => s.(txs := s.txs - {t})
    case _ => s.(txs := s.txs[l.t := Advance(s, ttl, l)])
  }

  ghost predicate Init(s: State) {
    s.db == EMPTY && s.txs == map[] && s.ids == {} && s.done == []
  }

  ghost predicate Step(ttl: nat, s: State, s': State) {
    exists l :: Enabled(s, l) && s' == Apply(s, ttl, l)
  }

  ghost predicate Behavior(ttl: nat, run: seq<State>) {
    && |run| > 0 && Init(run[0])
    && forall i :: 0 <= i < |run| - 1 ==> Step(ttl, run[i], run[i + 1])
  }

  function Final(run: seq<State>): State
    requires |run| > 0
  {
    run[|run| - 1]
  }

  /* ---- What is promised ---- */

  // The tables reached by running the calls alone, one after the other.
  function Serial(done: seq<Committed>, ttl: nat): Db {
    if done == [] then EMPTY
    else
      var last := done[|done| - 1];
      Atomic(Serial(done[..|done| - 1], ttl), last.call, last.start, ttl).db
  }

  // The i-th call returned what it returns when run alone after the calls before it.
  predicate OutcomeAt(done: seq<Committed>, ttl: nat, i: nat)
    requires i < |done|
  {
    done[i].outcome == Atomic(Serial(done[..i], ttl), done[i].call, done[i].start, ttl).outcome
  }

  predicate Outcomes(done: seq<Committed>, ttl: nat) {
    forall i :: 0 <= i < |done| ==> OutcomeAt(done, ttl, i)
  }

  // The committed tables, and every result returned, are those of the serial run in commit order.
  predicate SerialInv(s: State, ttl: nat) {
    s.db == Serial(s.done, ttl) && Outcomes(s.done, ttl)
  }

  predicate IsPurchase(c: Committed) {
    c.call.CreateOrder? && c.outcome.Ordered? && !c.outcome.replayed
  }

  predicate SameKey(c: Committed, d: Committed) {
    c.call.CreateOrder? && d.call.CreateOrder? && c.call.req.UK() == d.call.req.UK()
  }

  // Of two purchases under one key, the later was claimed after the earlier one's row had expired.
  predicate ExactlyOnce(s: State, ttl: nat) {
    forall i, j :: 0 <= i < j < |s.done| && IsPurchase(s.done[i]) && IsPurchase(s.done[j])
                   && SameKey(s.done[i], s.done[j])
      ==> s.done[i].start + ttl < s.done[j].claimAt
  }

  /* ---- The inductive invariant ---- */

  predicate OrderTxInv(db: Db, now: nat, ttl: nat, tx: Tx)
    requires tx.call.CreateOrder?
  {
    var req, pc := tx.call.req, tx.pc;
    && tx.purged == {}
    && (pc.Fresh() ==> Claimable(db, req.UK(), tx.start) && tx.start <= tx.claimAt <= now)
    && (pc.Conflict? || pc.Replayed? ==> !Claimable(db, req.UK(), tx.start))
    && (pc.AfterRow() ==> InStock(db, req))
    && (pc.AfterOrder() ==> req.quantity > 0)
    && tx.replay == (if pc.Replayed? then tx.replay else None)
    && (pc.Replayed? ==> tx.replay.Some? && ReplayedOrder(db, req).outcome == Ordered(tx.replay.value, true))
    && tx.row == (if pc.AfterRow() then Some(Bought(db.products[req.productID], req.quantity)) else None)
    && tx.order == (if pc.AfterOrder() then Some(OrderRow(req, tx.row.value.price, tx.start)) else None)
    && tx.event == (if pc.AfterEvent() then Some(EventFor(tx.call, tx.row.value)) else None)
    && tx.key == (if !pc.Fresh() then None
                  else if pc.Ready? then Some(ClaimedRow(req, tx.start, ttl).(orderID := Some(req.orderID)))
                  else Some(ClaimedRow(req, tx.start, ttl)))
  }

  predicate RowTxInv(db: Db, tx: Tx)
    requires tx.call.Save? || tx.call.Update? || tx.call.Delete?
  {
    && (tx.pc.Begun? || tx.pc.RowWritten? || tx.pc.Ready?)
    && tx.purged == {} && tx.key.None? && tx.order.None? && tx.replay.None?
    && (tx.pc.AfterRow() ==> RowWritable(db, tx.call))
    && tx.row == (if tx.pc.AfterRow() then Some(WrittenRow(db, tx.call)) else None)
    && tx.event == (if tx.pc.AfterEvent() then Some(EventFor(tx.call, tx.row.value)) else None)
  }

  predicate PurgeTxInv(db: Db, tx: Tx) {
    && tx.pc.Begun? && tx.key.None? && tx.row.None? && tx.order.None? && tx.event.None? && tx.replay.None?
    && forall uk :: uk in tx.purged ==> uk in db.keys && db.keys[uk].expires < tx.start
  }

  // What a transaction read and wrote still agrees with the committed tables.
  predicate TxInv(db: Db, now: nat, ttl: nat, tx: Tx) {
    tx.start <= now &&
    match tx.call
    case CreateOrder(_, _) => OrderTxInv(db, now, ttl, tx)
    case Purge(_) => PurgeTxInv(db, tx)
    case _ => RowTxInv(db, tx)
  }

  ghost predicate KeyLockInv(s: State) {
    forall t, u, uk :: t in s.txs && u in s.txs && t != u ==> !(HoldsKey(s.txs[t], uk) && HoldsKey(s.txs[u], uk))
  }

  ghost predicate RowLockInv(s: State) {
    forall t, u, id :: t in s.txs && u in s.txs && t != u ==> !(HoldsRow(s.txs[t], id) && HoldsRow(s.txs[u], id))
  }

  ghost predicate IdInv(s: State) {
    && s.db.orders.Keys <= s.ids
    && (forall id: Uuid {:trigger EventsOf(s.db.log, id)} :: EventsOf(s.db.log, id) != [] ==> id in s.ids)
    && (forall t :: t in s.txs ==> NewIds(s.txs[t].call) <= s.ids && FreshIds(s.db, s.txs[t].call))
    && (forall t, u :: t in s.txs && u in s.txs && t != u ==> NewIds(s.txs[t].call) !! NewIds(s.txs[u].call))
  }

  // A purchase's row has expired, or is still the one stored under its key.
  predicate Covered(s: State, ttl: nat, c: Committed) {
    IsPurchase(c) ==>
      || c.start + ttl < s.now
      || (c.call.req.UK() in s.db.keys && s.db.keys[c.call.req.UK()].expires == c.start + ttl)
  }

  // A transaction that claimed a key did so after every earlier purchase under it had expired.
  predicate ClaimedLate(tx: Tx, ttl: nat, c: Committed) {
    tx.call.CreateOrder? && tx.pc.Fresh() && IsPurchase(c) && tx.call.req.UK() == c.call.req.UK()
    ==> c.start + ttl < tx.claimAt
  }

  predicate CoveredInv(s: State, ttl: nat) {
    forall i :: 0 <= i < |s.done| ==> Covered(s, ttl, s.done[i])
  }

  predicate ClaimedLateInv(s: State, ttl: nat) {
    forall t, i :: t in s.txs && 0 <= i < |s.done| ==> ClaimedLate(s.txs[t], ttl, s.done[i])
  }

  ghost predicate TxsInv(s: State, ttl: nat) {
    forall t :: t in s.txs ==> TxInv(s.db, s.now, ttl, s.txs[t])
  }

  ghost predicate Inv(s: State, ttl: nat) {
    && TxsInv(s, ttl)
    && KeyLockInv(s) && RowLockInv(s)
    && IdInv(s)
    && DbInv(s.db)
    && SerialInv(s, ttl)
    && CoveredInv(s, ttl) && ClaimedLateInv(s, ttl)
    && ExactlyOnce(s, ttl)
  }

  /* ---- Preservation ---- */

  lemma AdvanceKeepsTx(s: State, ttl: nat, l: Label)
    requires Enabled(s, l) && !l.Tick? && !l.Begin? && !l.Commit? && !l.Rollback?
    requires TxInv(s.db, s.now, ttl, s.txs[l.t])
    ensures TxInv(s.db, s.now, ttl, Advance(s, ttl, l))
  {
  }

  // A commit writes only rows its transaction holds.
  lemma CommitFrame(s: State, ttl: nat, t: nat)
    requires t in s.txs && TxInv(s.db, s.now, ttl, s.txs[t]) && FreshIds(s.db, s.txs[t].call)
    ensures var db' := Written(s.db, s.txs[t]);
      && (forall uk :: !HoldsKey(s.txs[t], uk) ==>
            (uk in s.db.keys <==> uk in db'.keys) && (uk in s.db.keys ==> db'.keys[uk] == s.db.keys[uk]))
      && (forall id :: !HoldsRow(s.txs[t], id) ==>
            && (id in s.db.products <==> id in db'.products)
            && (id in s.db.products ==> db'.products[id] == s.db.products[id])
            && (Referenced(db'.orders, id) ==> Referenced(s.db.orders, id)))
      && (forall o :: o in s.db.orders ==> o in db'.orders && db'.orders[o] == s.db.orders[o])
  {
  }

  lemma CommitKeepsOtherTx(s: State, ttl: nat, t: nat, u: nat)
    requires t in s.txs && u in s.txs && t != u && KeyLockInv(s) && RowLockInv(s)
    requires TxInv(s.db, s.now, ttl, s.txs[t]) && FreshIds(s.db, s.txs[t].call)
    requires TxInv(s.db, s.now, ttl, s.txs[u])
    ensures TxInv(Written(s.db, s.txs[t]), s.now, ttl, s.txs[u])
  {
    CommitFrame(s, ttl, t);
    var tx := s.txs[u];
    if tx.call.CreateOrder? && tx.pc.AfterClaim() {
      assert HoldsKey(tx, tx.call.req.UK());
    }
    if tx.pc.AfterRow() && Target(tx.call).Some? {
      assert HoldsRow(tx, Target(tx.call).value);
    }
    if tx.call.Purge? {
      assert forall uk :: uk in tx.purged ==> HoldsKey(tx, uk);
    }
  }

  // At commit, the pending writes are exactly the call run alone on the committed tables.
  lemma CommitIsAtomic(s: State, ttl: nat, t: nat)
    requires t in s.txs && Committable(s.txs[t])
    requires TxInv(s.db, s.now, ttl, s.txs[t]) && FreshIds(s.db, s.txs[t].call)
    ensures Effect(Written(s.db, s.txs[t]), OutcomeOf(s.txs[t])) == Atomic(s.db, CallOf(s.txs[t]), s.txs[t].start, ttl)
  {
    var tx := s.txs[t];
    if tx.call.Purge? {
      assert Purged(s.db.keys, tx.purged, tx.start) == s.db.keys - tx.purged;
    }
  }

  predicate Advances(l: Label) {
    !l.Tick? && !l.Begin? && !l.Commit? && !l.Rollback?
  }

  lemma StepKeepsTxs(s: State, ttl: nat, l: Label)
    requires TxsInv(s, ttl) && Enabled(s, l) && !l.Commit?
    ensures TxsInv(Apply(s, ttl, l), ttl)
  {
    var s' := Apply(s, ttl, l);
    if Advances(l) {
      AdvanceKeepsTx(s, ttl, l);
    }
    forall u | u in s'.txs ensures TxInv(s'.db, s'.now, ttl, s'.txs[u]) {
      assert u in s.txs ==> TxInv(s.db, s.now, ttl, s.txs[u]);
    }
  }

  lemma CommitKeepsTxs(s: State, ttl: nat, t: nat)
    requires TxsInv(s, ttl) && KeyLockInv(s) && RowLockInv(s) && Enabled(s, Commit(t)) && FreshIds(s.db, s.txs[t].call)
    ensures TxsInv(Apply(s, ttl, Commit(t)), ttl)
  {
    forall u | u in s.txs && u != t ensures TxInv(Written(s.db, s.txs[t]), s.now, ttl, s.txs[u]) {
      CommitKeepsOtherTx(s, ttl, t, u);
    }
  }

  // A statement only adds locks it found free.
  lemma AdvanceLocks(s: State, ttl: nat, l: Label)
    requires Enabled(s, l) && Advances(l)
    requires TxInv(s.db, s.now, ttl, s.txs[l.t])
    ensures Advance(s, ttl, l).call == s.txs[l.t].call
    ensures forall uk :: HoldsKey(Advance(s, ttl, l), uk) ==> HoldsKey(s.txs[l.t], uk) || KeyFree(s, l.t, uk)
    ensures forall id :: HoldsRow(Advance(s, ttl, l), id) ==> HoldsRow(s.txs[l.t], id) || RowFree(s, l.t, id)
  {
  }

  lemma AdvanceKeepsKeyLocks(s: State, ttl: nat, l: Label)
    requires TxsInv(s, ttl) && KeyLockInv(s) && Enabled(s, l) && Advances(l)
    ensures KeyLockInv(Apply(s, ttl, l))
  {
    var s' := Apply(s, ttl, l);
    AdvanceLocks(s, ttl, l);
    forall t, u, uk | t in s'.txs && u in s'.txs && t != u
      ensures !(HoldsKey(s'.txs[t], uk) && HoldsKey(s'.txs[u], uk))
    {
      assert !(HoldsKey(s.txs[t], uk) && HoldsKey(s.txs[u], uk));
    }
  }

  lemma AdvanceKeepsRowLocks(s: State, ttl: nat, l: Label)
    requires TxsInv(s, ttl) && RowLockInv(s) && Enabled(s, l) && Advances(l)
    ensures RowLockInv(Apply(s, ttl, l))
  {
    var s' := Apply(s, ttl, l);
    AdvanceLocks(s, ttl, l);
    forall t, u, id | t in s'.txs && u in s'.txs && t != u
      ensures !(HoldsRow(s'.txs[t], id) && HoldsRow(s'.txs[u], id))
    {
      assert !(HoldsRow(s.txs[t], id) && HoldsRow(s.txs[u], id));
    }
  }

  lemma StepKeepsLocks(s: State, ttl: nat, l: Label)
    requires TxsInv(s, ttl) && KeyLockInv(s) && RowLockInv(s) && Enabled(s, l)
    ensures KeyLockInv(Apply(s, ttl, l)) && RowLockInv(Apply(s, ttl, l))
  {
    if Advances(l) {
      AdvanceKeepsKeyLocks(s, ttl, l);
      AdvanceKeepsRowLocks(s, ttl, l);
    }
  }

  // The event a commit adds is about its target, which is a new product or a live one.
  lemma CommittedEvent(s: State, ttl: nat, t: nat, id: Uuid)
    requires t in s.txs && TxInv(s.db, s.now, ttl, s.txs[t]) && DbInv(s.db)
    ensures var tx := s.txs[t];
      && (tx.event.Some? ==> Target(tx.call) == Some(tx.event.value.productID))
      && (tx.event.Some? && !tx.call.Save? ==> tx.event.value.productID in s.db.products)
      && EventsOf(Written(s.db, tx).log, id) ==
           EventsOf(s.db.log, id) + if tx.event.Some? && tx.event.value.productID == id then [tx.event.value] else []
  {
    var tx := s.txs[t];
    if tx.event.Some? {
      assert ProductInv(s.db, Target(tx.call).value);
      EventsAppend(s.db.log, tx.event.value, id);
    }
  }

  lemma CommitKeepsIds(s: State, ttl: nat, t: nat)
    requires TxsInv(s, ttl) && IdInv(s) && DbInv(s.db) && Enabled(s, Commit(t))
    ensures IdInv(Apply(s, ttl, Commit(t)))
  {
    var s', tx := Apply(s, ttl, Commit(t)), s.txs[t];
    assert TxInv(s.db, s.now, ttl, tx);
    forall id: Uuid ensures EventsOf(s'.db.log, id) != [] ==> id in s'.ids {
      CommittedEvent(s, ttl, t, id);
      assert ProductInv(s.db, id);
    }
    forall u | u in s'.txs ensures FreshIds(s'.db, s'.txs[u].call) {
      assert FreshIds(s.db, s.txs[u].call) && NewIds(s.txs[t].call) !! NewIds(s.txs[u].call);
      if s.txs[u].call.Save? {
        var id := s.txs[u].call.product.id;
        CommittedEvent(s, ttl, t, id);
        assert ProductInv(s.db, id);
      }
    }
  }

  lemma AdvanceKeepsIds(s: State, ttl: nat, l: Label)
    requires TxsInv(s, ttl) && IdInv(s) && Enabled(s, l) && Advances(l)
    ensures IdInv(Apply(s, ttl, l))
  {
    var s' := Apply(s, ttl, l);
    AdvanceLocks(s, ttl, l);
    assert forall t :: t in s'.txs ==> t in s.txs && s'.txs[t].call == s.txs[t].call;
  }

  lemma BeginKeepsIds(s: State, ttl: nat, l: Label)
    requires IdInv(s) && Enabled(s, l) && (l.Tick? || l.Begin? || l.Rollback?)
    ensures IdInv(Apply(s, ttl, l))
  {
    if l.Begin? && l.call.Save? {
      assert EventsOf(s.db.log, l.call.product.id) == [];
    }
  }

  lemma CommitKeepsSerial(s: State, ttl: nat, t: nat)
    requires Enabled(s, Commit(t)) && SerialInv(s, ttl)
    requires TxInv(s.db, s.now, ttl, s.txs[t]) && FreshIds(s.db, s.txs[t].call)
    ensures SerialInv(Apply(s, ttl, Commit(t)), ttl)
  {
    var s' := Apply(s, ttl, Commit(t));
    CommitIsAtomic(s, ttl, t);
    assert s'.done[..|s.done|] == s.done;
    forall i | 0 <= i < |s.done| ensures OutcomeAt(s'.done, ttl, i) {
      assert s'.done[..i] == s.done[..i] && OutcomeAt(s.done, ttl, i);
    }
  }

  lemma StepKeepsCovered(s: State, ttl: nat, l: Label)
    requires CoveredInv(s, ttl) && Enabled(s, l) && !l.Commit?
    ensures CoveredInv(Apply(s, ttl, l), ttl)
  {
    var s' := Apply(s, ttl, l);
    forall i | 0 <= i < |s'.done| ensures Covered(s', ttl, s'.done[i]) {
      assert Covered(s, ttl, s.done[i]);
    }
  }

  lemma StepKeepsClaimedLate(s: State, ttl: nat, l: Label)
    requires TxsInv(s, ttl) && CoveredInv(s, ttl) && ClaimedLateInv(s, ttl) && Enabled(s, l) && !l.Commit?
    ensures ClaimedLateInv(Apply(s, ttl, l), ttl)
  {
    var s' := Apply(s, ttl, l);
    forall t, i | t in s'.txs && 0 <= i < |s'.done| ensures ClaimedLate(s'.txs[t], ttl, s'.done[i]) {
      assert Covered(s, ttl, s.done[i]);
      assert t in s.txs ==> ClaimedLate(s.txs[t], ttl, s.done[i]) && TxInv(s.db, s.now, ttl, s.txs[t]);
    }
  }

  lemma CommitKeepsCovered(s: State, ttl: nat, t: nat)
    requires CoveredInv(s, ttl) && ClaimedLateInv(s, ttl) && Enabled(s, Commit(t))
    requires TxInv(s.db, s.now, ttl, s.txs[t]) && FreshIds(s.db, s.txs[t].call)
    ensures CoveredInv(Apply(s, ttl, Commit(t)), ttl)
  {
    var s' := Apply(s, ttl, Commit(t));
    CommitFrame(s, ttl, t);
    forall i | 0 <= i < |s'.done| ensures Covered(s', ttl, s'.done[i]) {
      if i < |s.done| {
        assert Covered(s, ttl, s.done[i]) && ClaimedLate(s.txs[t], ttl, s.done[i]);
      }
    }
  }

  lemma CommitKeepsClaimedLate(s: State, ttl: nat, t: nat)
    requires ClaimedLateInv(s, ttl) && KeyLockInv(s) && Enabled(s, Commit(t))
    requires TxInv(s.db, s.now, ttl, s.txs[t])
    ensures ClaimedLateInv(Apply(s, ttl, Commit(t)), ttl)
  {
    var s' := Apply(s, ttl, Commit(t));
    forall u, i | u in s'.txs && 0 <= i < |s'.done| ensures ClaimedLate(s'.txs[u], ttl, s'.done[i]) {
      if i < |s.done| {
        assert ClaimedLate(s.txs[u], ttl, s.done[i]);
      } else if s.txs[u].call.CreateOrder? {
        assert !(HoldsKey(s.txs[t], s.txs[u].call.req.UK()) && HoldsKey(s.txs[u], s.txs[u].call.req.UK()));
      }
    }
  }

  lemma CommitKeepsExactlyOnce(s: State, ttl: nat, t: nat)
    requires ExactlyOnce(s, ttl) && ClaimedLateInv(s, ttl) && Enabled(s, Commit(t))
    requires TxInv(s.db, s.now, ttl, s.txs[t])
    ensures ExactlyOnce(Apply(s, ttl, Commit(t)), ttl)
  {
    assert forall i :: 0 <= i < |s.done| ==> ClaimedLate(s.txs[t], ttl, s.done[i]);
  }

  lemma CommitKeepsInv(s: State, ttl: nat, t: nat)
    requires Inv(s, ttl) && Enabled(s, Commit(t))
    ensures Inv(Apply(s, ttl, Commit(t)), ttl)
  {
    var tx := s.txs[t];
    assert TxInv(s.db, s.now, ttl, tx) && FreshIds(s.db, tx.call);
    CommitKeepsTxs(s, ttl, t);
    StepKeepsLocks(s, ttl, Commit(t));
    CommitKeepsIds(s, ttl, t);
    CommitIsAtomic(s, ttl, t);
    AtomicKeepsDbInv(s.db, CallOf(tx), tx.start, ttl);
    CommitKeepsSerial(s, ttl, t);
    CommitKeepsCovered(s, ttl, t);
    CommitKeepsClaimedLate(s, ttl, t);
    CommitKeepsExactlyOnce(s, ttl, t);
  }

  lemma StepKeepsInv(s: State, ttl: nat, l: Label)
    requires Inv(s, ttl) && Enabled(s, l)
    ensures Inv(Apply(s, ttl, l), ttl)
  {
    if l.Commit? {
      CommitKeepsInv(s, ttl, l.t);
    } else {
      StepKeepsTxs(s, ttl, l);
      StepKeepsLocks(s, ttl, l);
      if Advances(l) {
        AdvanceKeepsIds(s, ttl, l);
      } else {
        BeginKeepsIds(s, ttl, l);
      }
      StepKeepsCovered(s, ttl, l);
      StepKeepsClaimedLate(s, ttl, l);
    }
  }

  lemma InitHoldsInv(s: State, ttl: nat)
    requires Init(s)
    ensures Inv(s, ttl)
  {
    EmptyDbInv();
    assert forall id: Uuid {:trigger EventsOf(s.db.log, id)} :: EventsOf(s.db.log, id) == [];
  }

  lemma {:induction false} ReachableInv(ttl: nat, run: seq<State>)
    requires Behavior(ttl, run)
    ensures Inv(Final(run), ttl)
    decreases |run|
  {
    if |run| == 1 {
      InitHoldsInv(run[0], ttl);
    } else {
      var before := run[..|run| - 1];
      ReachableInv(ttl, before);
      assert Step(ttl, run[|run| - 2], run[|run| - 1]);
      var l :| Enabled(Final(before), l) && Final(run) == Apply(Final(before), ttl, l);
      StepKeepsInv(Final(before), ttl, l);
    }
  }
}
