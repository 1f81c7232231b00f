/**
 Calls that meet no lock run to commit, and come to what they come to alone, whatever else is open. So the step
 machine leaves out no result that a call of the store can have.
 */
module CallsComplete {
  import opened Domain
  import opened Store
  import opened Transactions

  lemma Extend(ttl: nat, run: seq<State>, l: Label) returns (longer: seq<State>)
    requires Behavior(ttl, run) && Enabled(Final(run), l)
    ensures Behavior(ttl, longer) && Final(longer) == Apply(Final(run), ttl, l)
  {
    longer := run + [Apply(Final(run), ttl, l)];
    assert Step(ttl, Final(run), Final(longer));
  }

  // The purchase can go through: nothing in the tables or the locks stands in its way.
  predicate Unhindered(s: State, t: nat) {
    && RunningOrder(s, t, Begun)
    && var req := s.txs[t].call.req;
       && (req.UK() in s.db.keys ==> s.db.keys[req.UK()].expires < s.txs[t].start)
       && req.productID in s.db.products && 0 < req.quantity <= s.db.products[req.productID].stock
       && KeyFree(s, t, req.UK()) && RowFree(s, t, req.productID)
  }

  lemma ClaimAndBuy(ttl: nat, run: seq<State>, t: nat) returns (longer: seq<State>)
    requires Behavior(ttl, run) && Unhindered(Final(run), t)
    ensures Behavior(ttl, longer)
    ensures var s, s' := Final(run), Final(longer);
      && RunningOrder(s', t, RowWritten) && s' == s.(txs := s.txs[t := s'.txs[t]])
      && s'.txs[t].call == s.txs[t].call && s'.txs[t].start == s.txs[t].start && s'.txs[t].claimAt == s.now
      && s'.txs[t].row.Some? && s'.txs[t].key.Some?
  {
    var s := Final(run);
    longer := Extend(ttl, run, Claim(t));
    var s1 := Final(longer);
    assert forall u :: u in s1.txs && u != t ==> s1.txs[u] == s.txs[u];
    longer := Extend(ttl, longer, Purchase(t));
  }

  lemma WriteOrder(ttl: nat, run: seq<State>, t: nat) returns (longer: seq<State>)
    requires Behavior(ttl, run) && RunningOrder(Final(run), t, RowWritten)
    requires var tx := Final(run).txs[t];
      tx.row.Some? && tx.key.Some? && tx.call.req.quantity > 0 && tx.call.req.orderID !in Final(run).db.orders
    ensures Behavior(ttl, longer)
    ensures var s, s' := Final(run), Final(longer);
      && RunningOrder(s', t, Ready) && s' == s.(txs := s.txs[t := s'.txs[t]])
      && s'.txs[t].call == s.txs[t].call && s'.txs[t].start == s.txs[t].start && s'.txs[t].claimAt == s.txs[t].claimAt
  {
    longer := Extend(ttl, run, InsertOrder(t));
    longer := Extend(ttl, longer, InsertEvent(t));
    longer := Extend(ttl, longer, Link(t));
  }

  lemma OrderIdIsNew(ttl: nat, run: seq<State>, t: nat)
    requires Behavior(ttl, run) && t in Final(run).txs && Final(run).txs[t].call.CreateOrder?
    ensures Final(run).txs[t].call.req.orderID !in Final(run).db.orders
  {
    ReachableInv(ttl, run);
    assert FreshIds(Final(run).db, Final(run).txs[t].call);
  }

  lemma CommitReady(ttl: nat, run: seq<State>, t: nat) returns (longer: seq<State>)
    requires Behavior(ttl, run) && RunningOrder(Final(run), t, Ready)
    ensures Behavior(ttl, longer)
    ensures var s, s' := Final(run), Final(longer);
      && s' == s.(db := s'.db, txs := s.txs - {t}, done := s'.done)
      && |s'.done| == |s.done| + 1 && s'.done[..|s.done|] == s.done
      && var c := s'.done[|s.done|];
         && c.call == s.txs[t].call && c.start == s.txs[t].start && c.claimAt == s.txs[t].claimAt && IsPurchase(c)
         && Effect(s'.db, c.outcome) == Atomic(s.db, c.call, c.start, ttl)
  {
    var s := Final(run);
    ReachableInv(ttl, run);
    assert TxInv(s.db, s.now, ttl, s.txs[t]) && FreshIds(s.db, s.txs[t].call);
    CommitIsAtomic(s, ttl, t);
    longer := Extend(ttl, run, Commit(t));
  }

  // An unhindered order ends as a committed purchase, whatever else is open.
  lemma PurchaseCompletes(ttl: nat, run: seq<State>, t: nat) returns (longer: seq<State>)
    requires Behavior(ttl, run) && Unhindered(Final(run), t)
    ensures Behavior(ttl, longer)
    ensures var s, s' := Final(run), Final(longer);
      && s'.now == s.now && s'.txs == s.txs - {t} && s'.ids == s.ids
      && |s'.done| == |s.done| + 1 && s'.done[..|s.done|] == s.done
      && var c := s'.done[|s.done|];
         && c.call == s.txs[t].call && c.start == s.txs[t].start && c.claimAt == s.now && IsPurchase(c)
         && Effect(s'.db, c.outcome) == Atomic(s.db, c.call, c.start, ttl)
  {
    OrderIdIsNew(ttl, run, t);
    longer := ClaimAndBuy(ttl, run, t);
    longer := WriteOrder(ttl, longer, t);
    var ready := Final(longer);
    assert ready.txs - {t} == Final(run).txs - {t};
    longer := CommitReady(ttl, longer, t);
  }

  // The run goes on to a state in which t is committed with what its call comes to alone on the tables before.
  predicate CommitsAlone(ttl: nat, s: State, s': State, t: nat, call: Call) {
    && t in s.txs && s'.now == s.now && s'.txs == s.txs - {t} && s'.ids == s.ids
    && |s'.done| == |s.done| + 1 && s'.done[..|s.done|] == s.done
    && s'.done[|s.done|].call == call && s'.done[|s.done|].start == s.txs[t].start
    && Effect(s'.db, s'.done[|s.done|].outcome) == Atomic(s.db, call, s.txs[t].start, ttl)
  }

  lemma WriteCompletes(ttl: nat, run: seq<State>, t: nat) returns (longer: seq<State>)
    requires Behavior(ttl, run) && Running(Final(run), t, Begun)
    requires var tx := Final(run).txs[t];
      && (tx.call.Save? || tx.call.Update? || tx.call.Delete?) && RowFree(Final(run), t, Target(tx.call).value)
      && !Atomic(Final(run).db, tx.call, tx.start, ttl).outcome.Failed?
    ensures Behavior(ttl, longer) && CommitsAlone(ttl, Final(run), Final(longer), t, Final(run).txs[t].call)
  {
    var s := Final(run);
    longer := Extend(ttl, run, WriteRow(t));
    longer := Extend(ttl, longer, InsertEvent(t));
    var ready := Final(longer);
    assert ready.txs - {t} == s.txs - {t};
    ReachableInv(ttl, longer);
    assert TxInv(ready.db, ready.now, ttl, ready.txs[t]) && FreshIds(ready.db, ready.txs[t].call);
    CommitIsAtomic(ready, ttl, t);
    longer := Extend(ttl, longer, Commit(t));
  }

  lemma ReplayCompletes(ttl: nat, run: seq<State>, t: nat) returns (longer: seq<State>)
    requires Behavior(ttl, run) && RunningOrder(Final(run), t, Begun)
    requires var s, tx := Final(run), Final(run).txs[t];
      && KeyFree(s, t, tx.call.req.UK()) && !Claimable(s.db, tx.call.req.UK(), tx.start)
      && !Atomic(s.db, tx.call, tx.start, ttl).outcome.Failed?
    ensures Behavior(ttl, longer) && CommitsAlone(ttl, Final(run), Final(longer), t, Final(run).txs[t].call)
  {
    var s := Final(run);
    longer := Extend(ttl, run, Claim(t));
    longer := Extend(ttl, longer, Replay(t));
    var ready := Final(longer);
    assert ready.txs - {t} == s.txs - {t};
    ReachableInv(ttl, longer);
    assert TxInv(ready.db, ready.now, ttl, ready.txs[t]) && FreshIds(ready.db, ready.txs[t].call);
    CommitIsAtomic(ready, ttl, t);
    longer := Extend(ttl, longer, Commit(t));
  }

  // Any call that meets no lock and would succeed alone can run to commit, with that very result.
  lemma CallCompletes(ttl: nat, run: seq<State>, t: nat) returns (longer: seq<State>)
    requires Behavior(ttl, run) && Running(Final(run), t, Begun)
    requires var s, tx := Final(run), Final(run).txs[t];
      && !tx.call.Purge? && RowFree(s, t, Target(tx.call).value)
      && (tx.call.CreateOrder? ==> KeyFree(s, t, tx.call.req.UK()))
      && !Atomic(s.db, tx.call, tx.start, ttl).outcome.Failed?
    ensures Behavior(ttl, longer) && CommitsAlone(ttl, Final(run), Final(longer), t, Final(run).txs[t].call)
  {
    var s, tx := Final(run), Final(run).txs[t];
    if !tx.call.CreateOrder? {
      longer := WriteCompletes(ttl, run, t);
    } else if Claimable(s.db, tx.call.req.UK(), tx.start) {
      longer := PurchaseCompletes(ttl, run, t);
    } else {
      longer := ReplayCompletes(ttl, run, t);
    }
  }

  lemma {:induction false} LockDoomed(ttl: nat, run: seq<State>, t: nat, doomed: set<UserKey>)
    returns (longer: seq<State>)
    requires Behavior(ttl, run) && Running(Final(run), t, Begun) && Final(run).txs[t].call.Purge?
    requires forall uk :: uk in doomed ==>
      && uk in Final(run).db.keys && Final(run).db.keys[uk].expires < Final(run).txs[t].start
      && KeyFree(Final(run), t, uk)
    ensures Behavior(ttl, longer)
    ensures var s := Final(run);
      Final(longer) == s.(txs := s.txs[t := s.txs[t].(purged := s.txs[t].purged + doomed)])
    decreases |doomed|
  {
    if doomed == {} {
      longer := run;
      assert Final(run).txs[t].purged + doomed == Final(run).txs[t].purged;
      assert Final(run).txs[t := Final(run).txs[t]] == Final(run).txs;
    } else {
      var uk :| uk in doomed;
      longer := LockDoomed(ttl, run, t, doomed - {uk});
      assert forall u :: u in Final(longer).txs && u != t ==> Final(longer).txs[u] == Final(run).txs[u];
      longer := Extend(ttl, longer, PurgeRow(t, uk));
      assert Final(run).txs[t].purged + (doomed - {uk}) + {uk} == Final(run).txs[t].purged + doomed;
    }
  }

  // A purge can delete any rows that expired before it began and that nobody holds.
  lemma PurgeCompletes(ttl: nat, run: seq<State>, t: nat, doomed: set<UserKey>) returns (longer: seq<State>)
    requires Behavior(ttl, run) && Running(Final(run), t, Begun) && Final(run).txs[t].call.Purge?
    requires Final(run).txs[t].purged == {}
    requires forall uk :: uk in doomed ==>
      && uk in Final(run).db.keys && Final(run).db.keys[uk].expires < Final(run).txs[t].start
      && KeyFree(Final(run), t, uk)
    ensures Behavior(ttl, longer) && CommitsAlone(ttl, Final(run), Final(longer), t, Purge(doomed))
    ensures Final(longer).db == Final(run).db.(keys := Final(run).db.keys - doomed)
  {
    longer := LockDoomed(ttl, run, t, doomed);
    var s, ready := Final(run), Final(longer);
    assert ready.txs - {t} == s.txs - {t} && ready.txs[t].purged == doomed;
    ReachableInv(ttl, longer);
    assert TxInv(ready.db, ready.now, ttl, ready.txs[t]) && FreshIds(ready.db, ready.txs[t].call);
    CommitIsAtomic(ready, ttl, t);
    longer := Extend(ttl, longer, Commit(t));
  }
}
