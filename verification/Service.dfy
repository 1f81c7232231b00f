/**
 The service's calls, one at a time: the store first, then the cache. CacheProtocol takes the same
 cache effects apart and interleaves them.
 */
module ServiceCalls {
  import opened Domain
  import opened Cache
  import Store
  import P = CacheProtocol
  import opened PostgresStore

  // What a product lookup comes to: the row, the domain's not-found error (None), or another error.
  datatype Load = Loaded(row: Option<Product>) | LoadFailed

  function ProductFrom(entry: Entry): Option<Product>
    requires entry.Hit()
  {
    if entry.Found? then Some(entry.product) else None
  }

  function RowOf(db: Store.Db, id: Uuid): Option<Product> {
    if id in db.products then Some(db.products[id]) else None
  }

  // A load as it is: the cell it leaves and what it returns. A product is kept for ttl and an absence for negTTL.
  function LoadEffect(cell: Option<Stored>, row: Option<Product>, now: nat, ttl: nat, negTTL: nat,
                      getFails: bool, loadFails: bool, setFails: bool): (Option<Stored>, Load)
  {
    var entry := Lookup(cell, now);
    if !getFails && entry.Found? then (cell, Loaded(Some(entry.product)))
    else if !getFails && entry.Absence? then (cell, Loaded(None))
    else if loadFails then (cell, LoadFailed)
    else if getFails || setFails then (cell, Loaded(row))
    else if row.Some? then (Some(Stored(Payload(row.value), now + Px(ttl))), Loaded(row))
    else (Some(Stored(Missing, now + Px(negTTL))), Loaded(None))
  }

  // What the cache would answer for id is what the database holds.
  predicate Agrees(cells: map<Uuid, Stored>, db: Store.Db, now: nat, id: Uuid) {
    Lookup(Cell(cells, id), now).Hit() ==> ProductFrom(Lookup(Cell(cells, id), now)) == RowOf(db, id)
  }

  // Touching one id keeps the answers for all others.
  lemma OthersStillAgree(
    cells: map<Uuid, Stored>, cells': map<Uuid, Stored>, db: Store.Db, db': Store.Db, id: Uuid, now: nat)
    requires forall k: Uuid :: Agrees(cells, db, now, k)
    requires cells' - {id} == cells - {id}
    requires forall k: Uuid :: k != id ==> RowOf(db', k) == RowOf(db, k)
    requires Agrees(cells', db', now, id)
    ensures forall k: Uuid :: Agrees(cells', db', now, k)
  {
    forall k: Uuid | k != id ensures Agrees(cells', db', now, k) {
      assert Agrees(cells, db, now, k);
      assert k in cells' <==> k in cells' - {id};
      assert k in cells <==> k in cells - {id};
      assert k in cells ==> cells'[k] == (cells' - {id})[k] == (cells - {id})[k] == cells[k];
    }
  }

  class Service {
    const store: Postgres
    const cache: Valkey

    constructor (store: Postgres, cache: Valkey)
      ensures this.store == store && this.cache == cache
    {
      this.store, this.cache := store, cache;
    }

    ghost predicate Coherent(now: nat)
      reads store`db, cache`cells
    {
      forall id: Uuid :: Agrees(cache.cells, store.db, now, id)
    }

    // A created id is new, so it is not cached; nothing is invalidated.
    method Create(p: Product, eventID: Uuid, start: nat, now: nat) returns (outcome: Store.Outcome)
      modifies store`db
      ensures Store.Effect(store.db, outcome) ==
              Store.Atomic(old(store.db), Store.Save(p, eventID), start, store.idempotencyTTL)
      ensures old(Coherent(now)) && p.id !in cache.cells ==> Coherent(now)
    {
      outcome := store.Save(p, eventID, start);
      if old(Coherent(now)) && p.id !in cache.cells {
        OthersStillAgree(cache.cells, cache.cells, old(store.db), store.db, p.id, now);
      }
    }

    // Only a product or a definite absence is worth caching; any other load error stores nothing, and a SET that
    // fails is only logged.
    method Fill(id: Uuid, loaded: Load, prev: Entry, now: nat, setFails: bool)
      modifies cache`cells
      ensures Cell(cache.cells, id) ==
        if setFails then old(Cell(cache.cells, id))
        else match loaded
        case Loaded(Some(p)) => GuardedSet(old(Cell(cache.cells, id)), now, Payload(p), cache.ttl, prev)
        case Loaded(None) => GuardedSet(old(Cell(cache.cells, id)), now, Missing, cache.negTTL, prev)
        case LoadFailed => old(Cell(cache.cells, id))
      ensures cache.cells - {id} == old(cache.cells) - {id}
      ensures setFails || loaded.LoadFailed? ==> cache.cells == old(cache.cells)
    {
      if setFails {
        return;
      }
      match loaded {
        case Loaded(Some(p)) => cache.Set(id, p, prev, now);
        case Loaded(None) => cache.SetMissing(id, prev, now);
        case LoadFailed =>
      }
    }

    // The flight: read the cache again, load, and fill only behind a clean read.
    method LoadProduct(id: Uuid, now: nat, getFails: bool, loadFails: bool, setFails: bool) returns (loaded: Load)
      modifies cache`cells
      ensures loaded == if !getFails && old(Lookup(Cell(cache.cells, id), now)).Hit()
                        then Loaded(ProductFrom(old(Lookup(Cell(cache.cells, id), now))))
                        else if loadFails then LoadFailed
                        else Loaded(RowOf(store.db, id))
      ensures (Cell(cache.cells, id), loaded) ==
        LoadEffect(old(Cell(cache.cells, id)), RowOf(store.db, id), now, cache.ttl, cache.negTTL,
                   getFails, loadFails, setFails)
      ensures getFails || setFails || loaded.LoadFailed? ==> cache.cells == old(cache.cells)
      ensures cache.cells - {id} == old(cache.cells) - {id}
      ensures old(Agrees(cache.cells, store.db, now, id)) ==> Agrees(cache.cells, store.db, now, id)
      ensures !getFails && !setFails && loaded.Loaded? && Px(cache.ttl) > 0 && Px(cache.negTTL) > 0 ==>
        Lookup(Cell(cache.cells, id), now).Hit() && ProductFrom(Lookup(Cell(cache.cells, id), now)) == loaded.row
    {
      var entry := NoKey;
      if !getFails {
        entry := cache.Get(id, now);
        if entry.Hit() {
          return Loaded(ProductFrom(entry));
        }
      }
      loaded := if loadFails then LoadFailed else Loaded(RowOf(store.db, id));
      if !getFails {
        Fill(id, loaded, entry, now, setFails);
      }
    }

    method FindByID(id: Uuid, now: nat, getFails: bool, loadGetFails: bool, loadFails: bool, setFails: bool)
      returns (loaded: Load)
      modifies cache`cells
      ensures cache.cells - {id} == old(cache.cells) - {id}
      ensures loaded.LoadFailed? ==> loadFails && cache.cells == old(cache.cells)
      ensures old(Coherent(now)) ==> Coherent(now)
      ensures old(Coherent(now)) && loaded.Loaded? ==>
        loaded.row == if id in store.db.products then Some(store.db.products[id]) else None
    {
      var entry := NoKey;
      if !getFails {
        entry := cache.Get(id, now);
      }
      if entry.Hit() {
        assert old(Coherent(now)) ==> Agrees(cache.cells, store.db, now, id);
        return Loaded(ProductFrom(entry));
      }
      loaded := LoadProduct(id, now, loadGetFails, loadFails, setFails);
      if old(Coherent(now)) {
        assert old(Agrees(cache.cells, store.db, now, id));
        OthersStillAgree(old(cache.cells), cache.cells, store.db, store.db, id, now);
      }
    }

    // A failed invalidation is only logged: the entry stays until its TTL.
    method Invalidate(id: Uuid, text: nat, now: nat, cacheFails: bool)
      modifies cache`cells
      ensures cacheFails ==> cache.cells == old(cache.cells)
      ensures !cacheFails ==> Cell(cache.cells, id) == Some(Stored(Tombstone(text), now + Px(cache.ttl)))
      ensures cache.cells - {id} == old(cache.cells) - {id}
    {
      if !cacheFails {
        cache.Invalidate(id, text, now);
      }
    }

    method Update(
      id: Uuid, name: string, price: Money, eventID: Uuid, start: nat, text: nat, now: nat, cacheFails: bool)
      returns (outcome: Store.Outcome)
      modifies store`db, cache`cells
      ensures Store.Effect(store.db, outcome) ==
              Store.Atomic(old(store.db), Store.Update(id, name, price, eventID), start, store.idempotencyTTL)
      ensures outcome.Failed? ==> cache.cells == old(cache.cells)
      ensures old(Coherent(now)) && !cacheFails ==> Coherent(now)
    {
      outcome := store.Update(id, name, price, eventID, start);
      if !outcome.Failed? {
        Invalidate(id, text, now, cacheFails);
        if old(Coherent(now)) && !cacheFails {
          OthersStillAgree(old(cache.cells), cache.cells, old(store.db), store.db, id, now);
        }
      }
    }

    method Delete(id: Uuid, eventID: Uuid, start: nat, text: nat, now: nat, cacheFails: bool)
      returns (outcome: Store.Outcome)
      modifies store`db, cache`cells
      ensures Store.Effect(store.db, outcome) ==
              Store.Atomic(old(store.db), Store.Delete(id, eventID), start, store.idempotencyTTL)
      ensures outcome.Failed? ==> cache.cells == old(cache.cells)
      ensures old(Coherent(now)) && !cacheFails ==> Coherent(now)
    {
      outcome := store.Delete(id, eventID, start);
      if !outcome.Failed? {
        Invalidate(id, text, now, cacheFails);
        if old(Coherent(now)) && !cacheFails {
          OthersStillAgree(old(cache.cells), cache.cells, old(store.db), store.db, id, now);
        }
      }
    }

    // A replay changes nothing in the store, so it leaves the cache alone too.
    method CreateOrder(req: Store.Request, eventID: Uuid, start: nat, text: nat, now: nat, cacheFails: bool)
      returns (outcome: Store.Outcome)
      modifies store`db, cache`cells
      ensures Store.Effect(store.db, outcome) ==
              Store.Atomic(old(store.db), Store.CreateOrder(req, eventID), start, store.idempotencyTTL)
      ensures outcome.Failed? || outcome == Store.Ordered(outcome.order, true) ==>
        store.db == old(store.db) && cache.cells == old(cache.cells)
      ensures old(Coherent(now)) && !cacheFails ==> Coherent(now)
    {
      outcome := store.CreateOrder(req, eventID, start);
      if !outcome.Failed? && !outcome.replayed {
        Invalidate(req.productID, text, now, cacheFails);
        if old(Coherent(now)) && !cacheFails {
          OthersStillAgree(old(cache.cells), cache.cells, old(store.db), store.db, req.productID, now);
        }
      }
    }
  }

  /* ---- The protocol's flight is this load ---- */

  // The flight has come to what the load comes to.
  predicate Comes(s: P.State, f: nat, effect: (Option<Stored>, Load)) {
    && s.cell == effect.0 && f in s.flights && s.flights[f].phase.Finished?
    && (if effect.1.LoadFailed? then s.flights[f].phase.result == P.Failed
        else s.flights[f].phase.result.Value? && s.flights[f].phase.result.row == effect.1.row)
  }

  lemma MissedFlight(p: P.Params, run: seq<P.State>, f: nat, loadFails: bool, setFails: bool)
    returns (longer: seq<P.State>)
    requires P.Behavior(p, run) && f in P.Final(run).flights && |P.Final(run).history| > 0
    requires var s := P.Final(run);
      && s.now <= s.flights[f].began + p.loadTimeout && s.flights[f].phase.Missed?
      && (s.flights[f].phase.guard.Some? ==>
          s.flights[f].phase.guard.value == Lookup(s.cell, s.now) && !Lookup(s.cell, s.now).Hit())
    ensures P.Behavior(p, longer)
    ensures var s := P.Final(run);
      var getFails := s.flights[f].phase.guard.None?;
      Comes(P.Final(longer), f,
            LoadEffect(s.cell, s.history[s.Last()].row, s.now, p.ttl, p.negTTL, getFails, loadFails, setFails))
  {
    var getFails := P.Final(run).flights[f].phase.guard.None?;
    longer := P.Extend(p, run, P.FlightLoad(f, loadFails));
    if !loadFails {
      longer := P.Extend(p, longer, if getFails || setFails then P.FlightSkipFill(f) else P.FlightFill(f));
    }
  }

  // A flight of the cache protocol that nobody interrupts does what LoadProduct does.
  lemma FlightIsLoadProduct(p: P.Params, run: seq<P.State>, f: nat, getFails: bool, loadFails: bool, setFails: bool)
    returns (longer: seq<P.State>)
    requires P.Behavior(p, run) && f in P.Final(run).flights && P.Final(run).flights[f].phase.Started?
    requires P.Final(run).now <= P.Final(run).flights[f].began + p.loadTimeout
    ensures P.Behavior(p, longer) && |P.Final(run).history| > 0
    ensures var s := P.Final(run);
      Comes(P.Final(longer), f,
            LoadEffect(s.cell, s.history[s.Last()].row, s.now, p.ttl, p.negTTL, getFails, loadFails, setFails))
  {
    P.ReachableInv(p, run);
    longer := P.Extend(p, run, P.FlightGet(f, getFails));
    if P.Final(longer).flights[f].phase.Missed? {
      longer := MissedFlight(p, longer, f, loadFails, setFails);
    }
  }
}
