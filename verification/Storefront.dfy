/**
 The store and the relays over one database: a commit that carries an event inserts its outbox row in the
 same step. The tables, the event log and the outbox then agree over whole runs.
 */
module Storefront {
  import opened Domain
  import opened Store
  import T = Transactions
  import O = OutboxProtocol

  datatype State = State(store: T.State, outbox: O.State)

  datatype Label =
    | Tick(d: nat)
    | StoreStep(store: T.Label)
    | CommitEvent(t: nat, id: nat)
    | RelayStep(relay: O.Label)

  predicate CommitsEvent(s: T.State, l: T.Label) {
    l.Commit? && l.t in s.txs && s.txs[l.t].event.Some?
  }

  predicate Enabled(p: O.Params, s: State, l: Label) {
    match l
    case Tick(_) => true
    case StoreStep(sl) => !sl.Tick? && !CommitsEvent(s.store, sl) && T.Enabled(s.store, sl)
    case CommitEvent(t, id) =>
      && CommitsEvent(s.store, T.Commit(t)) && T.Enabled(s.store, T.Commit(t))
      && O.Enabled(p, s.outbox, O.Insert(id, s.store.txs[t].event.value, s.store.txs[t].start))
    case RelayStep(rl) => !rl.Tick? && !rl.Insert? && O.Enabled(p, s.outbox, rl)
  }

  function Apply(p: O.Params, ttl: nat, s: State, l: Label): State
    requires Enabled(p, s, l)
  {
    match l
    case Tick(d) => State(T.Apply(s.store, ttl, T.Tick(d)), O.Apply(p, s.outbox, O.Tick(d)))
    case StoreStep(sl) => s.(store := T.Apply(s.store, ttl, sl))
    case CommitEvent(t, id) =>
      State(T.Apply(s.store, ttl, T.Commit(t)),
            O.Apply(p, s.outbox, O.Insert(id, s.store.txs[t].event.value, s.store.txs[t].start)))
    case RelayStep(rl) => s.(outbox := O.Apply(p, s.outbox, rl))
  }

  ghost predicate Init(s: State) {
    T.Init(s.store) && O.Init(s.outbox) && s.store.now == s.outbox.now
  }

  ghost predicate Step(p: O.Params, ttl: nat, s: State, s': State) {
    exists l :: Enabled(p, s, l) && s' == Apply(p, ttl, s, l)
  }

  ghost predicate Behavior(p: O.Params, ttl: nat, run: seq<State>) {
    && |run| > 0 && Init(run[0])
    && forall i :: 0 <= i < |run| - 1 ==> Step(p, ttl, run[i], run[i + 1])
  }

  function Final(run: seq<State>): State
    requires |run| > 0
  {
    run[|run| - 1]
  }

  // The outbox has received exactly the events of the store's log, in commit order.
  predicate SameLog(s: State) {
    && |s.outbox.log| == |s.store.db.log|
    && forall i :: 0 <= i < |s.outbox.log| ==> s.outbox.log[i].event == s.store.db.log[i]
  }

  ghost predicate Inv(p: O.Params, ttl: nat, s: State) {
    T.Inv(s.store, ttl) && O.Inv(p, s.outbox) && s.store.now == s.outbox.now && SameLog(s)
  }

  // A check on the combination itself: the insert asks for nothing that relays hold, so whatever commit the
  // store can make alone, it can make here.
  lemma CommitIsNeverBlocked(p: O.Params, ttl: nat, s: State, t: nat) returns (id: nat)
    requires Inv(p, ttl, s) && CommitsEvent(s.store, T.Commit(t)) && T.Enabled(s.store, T.Commit(t))
    ensures Enabled(p, s, CommitEvent(t, id))
  {
    assert T.TxInv(s.store.db, s.store.now, ttl, s.store.txs[t]);
    id := FreshId(s.outbox.log);
  }

  lemma {:induction false} FreshId(log: seq<O.Entry>) returns (id: nat)
    ensures forall i :: 0 <= i < |log| ==> log[i].id < id
    ensures id !in O.LogIds(log)
    decreases |log|
  {
    if log == [] {
      id := 0;
    } else {
      var below := FreshId(log[..|log| - 1]);
      id := Max(below, log[|log| - 1].id + 1);
    }
  }

  lemma RelayKeepsLog(p: O.Params, s: O.State, l: O.Label)
    requires O.Enabled(p, s, l) && !l.Tick? && !l.Insert?
    ensures O.Apply(p, s, l).log == s.log && O.Apply(p, s, l).now == s.now
  {
  }

  lemma StoreKeepsLog(ttl: nat, s: T.State, l: T.Label)
    requires T.Enabled(s, l) && !l.Tick? && !CommitsEvent(s, l)
    ensures T.Apply(s, ttl, l).db.log == s.db.log && T.Apply(s, ttl, l).now == s.now
  {
  }

  lemma StepKeepsSameLog(p: O.Params, ttl: nat, s: State, l: Label)
    requires Enabled(p, s, l) && s.store.now == s.outbox.now && SameLog(s)
    ensures var s' := Apply(p, ttl, s, l); s'.store.now == s'.outbox.now && SameLog(s')
  {
    match l
    case StoreStep(sl) => StoreKeepsLog(ttl, s.store, sl);
    case RelayStep(rl) => RelayKeepsLog(p, s.outbox, rl);
    case _ =>
  }

  lemma StepKeepsInv(p: O.Params, ttl: nat, s: State, l: Label)
    requires 0 < p.maxAttempts && Inv(p, ttl, s) && Enabled(p, s, l)
    ensures Inv(p, ttl, Apply(p, ttl, s, l))
  {
    StepKeepsSameLog(p, ttl, s, l);
    match l
    case Tick(d) =>
      T.StepKeepsInv(s.store, ttl, T.Tick(d));
      O.StepKeepsInv(p, s.outbox, O.Tick(d));
    case StoreStep(sl) =>
      T.StepKeepsInv(s.store, ttl, sl);
    case CommitEvent(t, id) =>
      T.StepKeepsInv(s.store, ttl, T.Commit(t));
      O.StepKeepsInv(p, s.outbox, O.Insert(id, s.store.txs[t].event.value, s.store.txs[t].start));
    case RelayStep(rl) =>
      O.StepKeepsInv(p, s.outbox, rl);
  }

  lemma {:induction false} ReachableInv(p: O.Params, ttl: nat, run: seq<State>)
    requires 0 < p.maxAttempts && Behavior(p, ttl, run)
    ensures Inv(p, ttl, Final(run))
    decreases |run|
  {
    if |run| == 1 {
      T.InitHoldsInv(run[0].store, ttl);
      O.InitHoldsInv(p, run[0].outbox);
    } else {
      var before := run[..|run| - 1];
      ReachableInv(p, ttl, before);
      assert Step(p, ttl, run[|run| - 2], run[|run| - 1]);
      var l :| Enabled(p, Final(before), l) && Final(run) == Apply(p, ttl, Final(before), l);
      StepKeepsInv(p, ttl, Final(before), l);
    }
  }

  // Where the k-th event of a product stands in the log.
  lemma {:induction false} EventPosition(log: seq<Event>, id: Uuid, k: nat) returns (i: nat)
    requires k < |EventsOf(log, id)|
    ensures i < |log| && log[i] == EventsOf(log, id)[k]
    decreases |log|
  {
    var n := |log| - 1;
    if k < |EventsOf(log[..n], id)| {
      i := EventPosition(log[..n], id, k);
    } else {
      i := n;
    }
  }

  // A committed event still waits in the outbox, lies in the dead letters, or was published.
  predicate Accounted(s: O.State, e: O.Entry) {
    || (e.id in s.tables.live && s.tables.live[e.id].event == e.event)
    || (e.id in s.tables.dead && s.tables.dead[e.id].event == e.event)
    || (e.id in s.gone && O.Count(s.published, e.id) >= 1)
  }

  lemma EntryIsAccounted(p: O.Params, s: O.State, i: nat)
    requires O.Inv(p, s) && i < |s.log|
    ensures Accounted(s, s.log[i])
  {
    var e := s.log[i];
    assert e.id in O.LogIds(s.log);
    assert O.EntryInv(s, e) && O.PlacedOnce(s, e.id) && O.PublishesAt(s, e.id);
  }

  // The event that a product's version is announced by, and what it says of the row.
  lemma VersionHasEvent(db: Db, id: Uuid, version: nat) returns (i: nat)
    requires ProductInv(db, id) && 1 <= version <= |EventsOf(db.log, id)|
    ensures i < |db.log| && db.log[i].productID == id && db.log[i].version == version
    ensures id in db.products && version == |EventsOf(db.log, id)| ==>
      db.products[id].version == version && db.products[id].stock == db.log[i].stock
  {
    var events := EventsOf(db.log, id);
    assert GoodEvent(events, version - 1);
    assert events[..|events|] == events;
    EventsAreOfProduct(db.log, id);
    i := EventPosition(db.log, id, version - 1);
  }

  // Every version that a product ever reached is announced by an event that is accounted for, and a live row's
  // version and stock are those of its last event.
  lemma EveryChangeIsAnnounced(p: O.Params, ttl: nat, run: seq<State>, id: Uuid, version: nat) returns (i: nat)
    requires 0 < p.maxAttempts && Behavior(p, ttl, run)
    requires 1 <= version <= |EventsOf(Final(run).store.db.log, id)|
    ensures var s := Final(run);
      && i < |s.outbox.log| && s.outbox.log[i].event.productID == id && s.outbox.log[i].event.version == version
      && Accounted(s.outbox, s.outbox.log[i])
      && (id in s.store.db.products && version == |EventsOf(s.store.db.log, id)| ==>
          && s.store.db.products[id].version == version
          && s.store.db.products[id].stock == s.outbox.log[i].event.stock)
  {
    var s := Final(run);
    ReachableInv(p, ttl, run);
    assert ProductInv(s.store.db, id);
    i := VersionHasEvent(s.store.db, id, version);
    EntryIsAccounted(p, s.outbox, i);
  }
}
