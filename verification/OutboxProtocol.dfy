/**
 Any number of relays drain one outbox while writers keep committing events. A drain locks the rows it claims
 one at a time, publishes them one at a time, and then commits its settlement or rolls back, at any point.
 */
module OutboxProtocol {
  import opened Domain
  import opened OutboxDrain

  datatype Params = Params(batchSize: nat, maxAttempts: nat)

  // A committed event, the outbox id it was given, and the start of the transaction that wrote it.
  datatype Entry = Entry(id: nat, event: Event, at: nat)

  datatype Drain = Drain(start: nat, batch: seq<Claimed>, outcomes: seq<Outcome>)

  datatype State = State(
    now: nat,
    tables: Tables,
    gone: set<nat>,               // rows deleted because a committed drain had sent them
    log: seq<Entry>,              // every event ever committed, in commit order
    published: map<nat, nat>,     // successful publishes per row, whether or not the drain committed
    aborted: map<nat, nat>,       // of those, the ones whose drain rolled back
    rejected: map<nat, nat>,      // permanent rejections that were committed, per row
    errors: map<nat, string>,     // the error of the last one
    drains: map<nat, Drain>)

  datatype Label =
    | Tick(d: nat)
    | Insert(id: nat, event: Event, start: nat)
    | Open(d: nat, start: nat)
    | Lock(d: nat, id: nat)
    | Publish(d: nat, outcome: Outcome)
    | Commit(d: nat)
    | Rollback(d: nat)

  function Count(m: map<nat, nat>, id: nat): nat {
    if id in m then m[id] else 0
  }

  function AddOne(m: map<nat, nat>, ids: set<nat>): map<nat, nat> {
    m + map id | id in ids :: Count(m, id) + 1
  }

  predicate Holds(drain: Drain, id: nat) {
    exists i :: 0 <= i < |drain.batch| && drain.batch[i].id == id
  }

  // The rows that open drains hold.
  function Locked(s: State): set<nat> {
    set d, i | d in s.drains && 0 <= i < |s.drains[d].batch| :: s.drains[d].batch[i].id
  }

  function SentSet(drain: Drain): set<nat> {
    set i | 0 <= i < |drain.outcomes| && i < |drain.batch| && drain.outcomes[i].Sent? :: drain.batch[i].id
  }

  function RejectedSet(drain: Drain): set<nat> {
    set i | 0 <= i < |drain.outcomes| && i < |drain.batch| && drain.outcomes[i].Undeliverable? :: drain.batch[i].id
  }

  // The last error per row, once the rejections among the outcomes are in.
  function Noted(errors: map<nat, string>, batch: seq<Claimed>, outcomes: seq<Outcome>): map<nat, string>
    requires |outcomes| <= |batch|
  {
    if outcomes == [] then errors
    else
      var n := |outcomes| - 1;
      var before := Noted(errors, batch, outcomes[..n]);
      if outcomes[n].Undeliverable? then before[batch[n].id := outcomes[n].err] else before
  }

  function LogIds(log: seq<Entry>): set<nat> {
    set i | 0 <= i < |log| :: log[i].id
  }

  predicate Attempting(drain: Drain) {
    |drain.outcomes| < |drain.batch| && !Stopped(drain.outcomes)
  }

  predicate Enabled(p: Params, s: State, l: Label) {
    match l
    case Tick(_) => true
    case Insert(id, _, start) => id !in LogIds(s.log) && start <= s.now
    case Open(d, start) => d !in s.drains && start <= s.now
    // the claim locks row by row, in the order of ids; a row that is locked when reached, or not due, is passed over
    case Lock(d, id) =>
      && d in s.drains && s.drains[d].outcomes == [] && |s.drains[d].batch| < p.batchSize
      && Due(s.tables.live, Locked(s), s.drains[d].start, id) && Below(Ids(s.drains[d].batch), id)
    case Publish(d, _) => d in s.drains && Attempting(s.drains[d])
    case Commit(d) => d in s.drains && !Attempting(s.drains[d]) && |s.drains[d].outcomes| <= |s.drains[d].batch|
    case Rollback(d) => d in s.drains
  }

  function Apply(p: Params, s: State, l: Label): State
    requires Enabled(p, s, l)
  {
    match l
    case Tick(d) => s.(now := s.now + d)
    case Insert(id, event, start) =>
      s.(tables := s.tables.(live := s.tables.live[id := Row(event, 0, start, start)]),
         log := s.log + [Entry(id, event, start)])
    case Open(d, start) => s.(drains := s.drains[d := Drain(start, [], [])])
    case Lock(d, id) =>
      var drain := s.drains[d];
      s.(drains := s.drains[d := drain.(batch := drain.batch + [Claimed(id, s.tables.live[id])])])
    case Publish(d, outcome) =>
      var drain := s.drains[d];
      s.(drains := s.drains[d := drain.(outcomes := drain.outcomes + [outcome])],
         published := if outcome.Sent? then AddOne(s.published, {drain.batch[|drain.outcomes|].id}) else s.published)
    case Commit(d) =>
      var drain := s.drains[d];
      s.(tables := Settle(s.tables, drain.batch, drain.outcomes, drain.start, p.maxAttempts),
         gone := s.gone + SentSet(drain),
         rejected := AddOne(s.rejected, RejectedSet(drain)),
         errors := Noted(s.errors, drain.batch, drain.outcomes),
         drains := s.drains - {d})
    case Rollback(d) =>
      s.(aborted := AddOne(s.aborted, SentSet(s.drains[d])), drains := s.drains - {d})
  }

  ghost predicate Init(s: State) {
    s.tables == Tables(map[], map[]) && s.gone == {} && s.log == [] && s.drains == map[]
    && s.published == map[] && s.aborted == map[] && s.rejected == map[] && s.errors == map[]
  }

  ghost predicate Step(p: Params, s: State, s': State) {
    exists l :: Enabled(p, s, l) && s' == Apply(p, s, l)
  }

  ghost predicate Behavior(p: Params, run: seq<State>) {
    && |run| > 0 && Init(run[0])
    && forall i :: 0 <= i < |run| - 1 ==> Step(p, run[i], run[i + 1])
  }

  function Final(run: seq<State>): State
    requires |run| > 0
  {
    run[|run| - 1]
  }

  /* ---- The invariant ---- */

  // A row is in exactly one place once its event is committed, and nowhere before.
  predicate PlacedOnce(s: State, id: nat) {
    if id in LogIds(s.log)
    then (id in s.tables.live && id !in s.tables.dead && id !in s.gone)
      || (id !in s.tables.live && id in s.tables.dead && id !in s.gone)
      || (id !in s.tables.live && id !in s.tables.dead && id in s.gone)
    else id !in s.tables.live && id !in s.tables.dead && id !in s.gone && Count(s.rejected, id) == 0
  }

  predicate AttemptsAt(p: Params, s: State, id: nat) {
    && (id in s.tables.live ==> s.tables.live[id].attempts == Count(s.rejected, id) < p.maxAttempts)
    && (id in s.tables.dead ==> s.tables.dead[id].attempts == Count(s.rejected, id) == p.maxAttempts)
    && (id in s.gone ==> Count(s.rejected, id) < p.maxAttempts)
  }

  ghost predicate RowsInv(p: Params, s: State) {
    forall id: nat {:trigger PlacedOnce(s, id)} :: PlacedOnce(s, id) && AttemptsAt(p, s, id)
  }

  predicate EntryInv(s: State, e: Entry) {
    && (e.id in s.tables.live ==>
        && s.tables.live[e.id].event == e.event && s.tables.live[e.id].createdAt == e.at
        && (s.tables.live[e.id].attempts == 0 ==> s.tables.live[e.id].due == e.at))
    && (e.id in s.tables.dead ==>
        && s.tables.dead[e.id].event == e.event && s.tables.dead[e.id].createdAt == e.at
        && e.id in s.errors && s.tables.dead[e.id].lastError == s.errors[e.id])
  }

  predicate LogInv(s: State) {
    && (forall i, j :: 0 <= i < j < |s.log| ==> s.log[i].id != s.log[j].id)
    && (forall i :: 0 <= i < |s.log| ==> EntryInv(s, s.log[i]))
  }

  predicate DrainInv(s: State, drain: Drain) {
    && |drain.outcomes| <= |drain.batch| && OnlyLastTransient(drain.outcomes)
    && Holding(s.tables, drain.batch) && InOrder(Ids(drain.batch))
  }

  ghost predicate DrainsInv(s: State) {
    forall d :: d in s.drains ==> DrainInv(s, s.drains[d])
  }

  // No row is held by two open drains.
  ghost predicate Exclusive(s: State) {
    forall d, e, id :: d in s.drains && e in s.drains && d != e ==> !(Holds(s.drains[d], id) && Holds(s.drains[e], id))
  }

  ghost predicate InFlight(s: State, id: nat) {
    exists d :: d in s.drains && id in SentSet(s.drains[d])
  }

  // Every successful publish was undone by a rollback, deleted its row, or belongs to an open drain.
  ghost predicate PublishesAt(s: State, id: nat) {
    Count(s.published, id) ==
      Count(s.aborted, id) + (if id in s.gone then 1 else 0) + (if InFlight(s, id) then 1 else 0)
  }

  ghost predicate PublishesInv(s: State) {
    forall id: nat {:trigger PublishesAt(s, id)} :: PublishesAt(s, id)
  }

  ghost predicate Inv(p: Params, s: State) {
    RowsInv(p, s) && LogInv(s) && DrainsInv(s) && Exclusive(s) && PublishesInv(s)
  }

  lemma StepKeepsDrains(p: Params, s: State, l: Label)
    requires Inv(p, s) && Enabled(p, s, l) && !l.Commit?
    ensures DrainsInv(Apply(p, s, l))
  {
    var s' := Apply(p, s, l);
    forall d | d in s'.drains ensures DrainInv(s', s'.drains[d]) {
      assert d in s.drains ==> DrainInv(s, s.drains[d]);
      if l.Insert? {
        assert PlacedOnce(s, l.id);
      } else if l.Lock? && d == l.d {
        assert forall i :: 0 <= i < |s.drains[d].batch| ==> s.drains[d].batch[i].id in Locked(s);
        assert Ids(s'.drains[d].batch) == Ids(s.drains[d].batch) + [l.id];
      }
    }
  }

  lemma LockHolds(p: Params, s: State, l: Label, id: nat)
    requires Enabled(p, s, l) && l.Lock?
    ensures Holds(Apply(p, s, l).drains[l.d], id) <==> Holds(s.drains[l.d], id) || id == l.id
    ensures forall e :: e in s.drains ==> !Holds(s.drains[e], l.id)
  {
    var batch, longer := s.drains[l.d].batch, Apply(p, s, l).drains[l.d].batch;
    assert longer[|batch|].id == l.id && forall i :: 0 <= i < |batch| ==> longer[i] == batch[i];
  }

  lemma StepKeepsExclusive(p: Params, s: State, l: Label)
    requires Exclusive(s) && Enabled(p, s, l)
    ensures Exclusive(Apply(p, s, l))
  {
    var s' := Apply(p, s, l);
    forall d, e, id | d in s'.drains && e in s'.drains && d != e
      ensures !(Holds(s'.drains[d], id) && Holds(s'.drains[e], id))
    {
      assert d in s.drains && e in s.drains ==> !(Holds(s.drains[d], id) && Holds(s.drains[e], id));
      if l.Lock? {
        LockHolds(p, s, l, id);
      }
    }
  }

  function Settled(p: Params, s: State, d: nat): Tables
    requires d in s.drains && |s.drains[d].outcomes| <= |s.drains[d].batch|
  {
    Settle(s.tables, s.drains[d].batch, s.drains[d].outcomes, s.drains[d].start, p.maxAttempts)
  }

  // A commit does to an attempted row what that row's own outcome asks for.
  lemma CommitAttempted(p: Params, s: State, d: nat, i: nat)
    requires d in s.drains && DrainInv(s, s.drains[d]) && i < |s.drains[d].outcomes|
    ensures var Drain(start, batch, outcomes) := s.drains[d];
      && SameAt(Settled(p, s, d), SettleRow(s.tables, batch[i], outcomes[i], start, p.maxAttempts), batch[i].id)
      && (batch[i].id in SentSet(s.drains[d]) <==> outcomes[i].Sent?)
      && (batch[i].id in RejectedSet(s.drains[d]) <==> outcomes[i].Undeliverable?)
  {
    SettleAt(s.tables, s.drains[d].batch, s.drains[d].outcomes, s.drains[d].start, p.maxAttempts, i);
  }

  predicate Attempted(drain: Drain, id: nat) {
    exists i :: 0 <= i < |drain.outcomes| && i < |drain.batch| && drain.batch[i].id == id
  }

  // A commit leaves every other row alone.
  lemma CommitUnattempted(p: Params, s: State, d: nat, id: nat)
    requires d in s.drains && DrainInv(s, s.drains[d]) && !Attempted(s.drains[d], id)
    ensures SameAt(Settled(p, s, d), s.tables, id) && id !in SentSet(s.drains[d]) && id !in RejectedSet(s.drains[d])
  {
    SettleElsewhere(s.tables, s.drains[d].batch, s.drains[d].outcomes, s.drains[d].start, p.maxAttempts, id);
  }

  lemma LogIdsAppend(log: seq<Entry>, e: Entry)
    ensures LogIds(log + [e]) == LogIds(log) + {e.id}
  {
    var longer := log + [e];
    assert longer[|log|].id in LogIds(longer);
    forall i | 0 <= i < |log| ensures log[i].id in LogIds(longer) {
      assert longer[i] == log[i];
    }
  }

  lemma CommitKeepsAttemptedRow(p: Params, s: State, d: nat, i: nat)
    requires RowsInv(p, s) && Enabled(p, s, Commit(d)) && DrainInv(s, s.drains[d]) && i < |s.drains[d].outcomes|
    ensures var s', id := Apply(p, s, Commit(d)), s.drains[d].batch[i].id;
      PlacedOnce(s', id) && AttemptsAt(p, s', id)
  {
    assert PlacedOnce(s, s.drains[d].batch[i].id);
    CommitAttempted(p, s, d, i);
  }

  lemma CommitKeepsRow(p: Params, s: State, d: nat, id: nat)
    requires RowsInv(p, s) && Enabled(p, s, Commit(d)) && DrainInv(s, s.drains[d])
    ensures PlacedOnce(Apply(p, s, Commit(d)), id) && AttemptsAt(p, Apply(p, s, Commit(d)), id)
  {
    assert PlacedOnce(s, id);
    if Attempted(s.drains[d], id) {
      var i :| 0 <= i < |s.drains[d].outcomes| && i < |s.drains[d].batch| && s.drains[d].batch[i].id == id;
      CommitKeepsAttemptedRow(p, s, d, i);
    } else {
      CommitUnattempted(p, s, d, id);
    }
  }

  lemma StepKeepsRows(p: Params, s: State, l: Label)
    requires 0 < p.maxAttempts && RowsInv(p, s) && DrainsInv(s) && Enabled(p, s, l)
    ensures RowsInv(p, Apply(p, s, l))
  {
    var s' := Apply(p, s, l);
    forall id: nat ensures PlacedOnce(s', id) && AttemptsAt(p, s', id) {
      assert PlacedOnce(s, id);
      if l.Commit? {
        CommitKeepsRow(p, s, l.d, id);
      } else if l.Insert? {
        LogIdsAppend(s.log, Entry(l.id, l.event, l.start));
      }
    }
  }

  lemma {:induction false} NotedElsewhere(
    errors: map<nat, string>, batch: seq<Claimed>, outcomes: seq<Outcome>, id: nat)
    requires |outcomes| <= |batch|
    requires forall i :: 0 <= i < |outcomes| ==> batch[i].id != id
    ensures var r := Noted(errors, batch, outcomes); (id in r <==> id in errors) && (id in r ==> r[id] == errors[id])
    decreases |outcomes|
  {
    if outcomes != [] {
      NotedElsewhere(errors, batch, outcomes[..|outcomes| - 1], id);
    }
  }

  lemma {:induction false} NotedAt(errors: map<nat, string>, batch: seq<Claimed>, outcomes: seq<Outcome>, i: nat)
    requires |outcomes| <= |batch| && Distinct(batch) && i < |outcomes|
    ensures var r, id := Noted(errors, batch, outcomes), batch[i].id;
      if outcomes[i].Undeliverable? then id in r && r[id] == outcomes[i].err
      else (id in r <==> id in errors) && (id in r ==> r[id] == errors[id])
    decreases |outcomes|
  {
    var n := |outcomes| - 1;
    if i < n {
      NotedAt(errors, batch, outcomes[..n], i);
    } else {
      NotedElsewhere(errors, batch, outcomes[..n], batch[i].id);
    }
  }

  lemma CommitKeepsEntry(p: Params, s: State, d: nat, e: Entry)
    requires Enabled(p, s, Commit(d)) && DrainInv(s, s.drains[d]) && EntryInv(s, e) && PlacedOnce(s, e.id)
    ensures EntryInv(Apply(p, s, Commit(d)), e)
  {
    var Drain(_, batch, outcomes) := s.drains[d];
    if Attempted(s.drains[d], e.id) {
      var i :| 0 <= i < |outcomes| && i < |batch| && batch[i].id == e.id;
      CommitAttempted(p, s, d, i);
      NotedAt(s.errors, batch, outcomes, i);
    } else {
      CommitUnattempted(p, s, d, e.id);
      NotedElsewhere(s.errors, batch, outcomes, e.id);
    }
  }

  lemma StepKeepsLog(p: Params, s: State, l: Label)
    requires RowsInv(p, s) && LogInv(s) && DrainsInv(s) && Enabled(p, s, l)
    ensures LogInv(Apply(p, s, l))
  {
    var s' := Apply(p, s, l);
    if l.Insert? {
      assert PlacedOnce(s, l.id);
      assert forall i :: 0 <= i < |s.log| ==> s.log[i].id in LogIds(s.log);
    }
    forall i | 0 <= i < |s'.log| ensures EntryInv(s', s'.log[i]) {
      if i < |s.log| {
        assert EntryInv(s, s.log[i]);
        if l.Commit? {
          assert PlacedOnce(s, s.log[i].id);
          CommitKeepsEntry(p, s, l.d, s.log[i]);
        }
      }
    }
  }

  // A commit cannot touch rows that another drain holds.
  lemma CommitKeepsDrains(p: Params, s: State, d: nat)
    requires DrainsInv(s) && Exclusive(s) && Enabled(p, s, Commit(d))
    ensures DrainsInv(Apply(p, s, Commit(d)))
  {
    var s' := Apply(p, s, Commit(d));
    forall e | e in s'.drains ensures DrainInv(s', s'.drains[e]) {
      var batch := s.drains[e].batch;
      assert DrainInv(s, s.drains[e]);
      forall i | 0 <= i < |batch| ensures batch[i].id in s'.tables.live && s'.tables.live[batch[i].id] == batch[i].row {
        assert Holds(s.drains[e], batch[i].id) && !Holds(s.drains[d], batch[i].id);
        CommitUnattempted(p, s, d, batch[i].id);
      }
    }
  }

  // Sent rows are held, so at most one open drain has sent a row, and it is still live.
  lemma SentIsHeld(s: State, d: nat, id: nat)
    requires d in s.drains && DrainInv(s, s.drains[d]) && id in SentSet(s.drains[d])
    ensures Holds(s.drains[d], id) && id in s.tables.live
  {
  }

  lemma SentSetAppend(drain: Drain, outcome: Outcome)
    requires |drain.outcomes| < |drain.batch|
    ensures SentSet(drain.(outcomes := drain.outcomes + [outcome])) ==
            if outcome.Sent? then SentSet(drain) + {drain.batch[|drain.outcomes|].id} else SentSet(drain)
  {
    var n, longer := |drain.outcomes|, drain.(outcomes := drain.outcomes + [outcome]);
    assert forall i :: 0 <= i < n ==> longer.outcomes[i] == drain.outcomes[i];
    assert longer.outcomes[n] == outcome;
  }

  // No open drain has sent a row that is the next one of some drain.
  lemma NextIsUnsent(s: State, d: nat)
    requires DrainsInv(s) && Exclusive(s) && d in s.drains && |s.drains[d].outcomes| < |s.drains[d].batch|
    ensures !InFlight(s, s.drains[d].batch[|s.drains[d].outcomes|].id)
  {
    var drain := s.drains[d];
    var row := drain.batch[|drain.outcomes|].id;
    assert DrainInv(s, drain) && Holds(drain, row);
    forall e | e in s.drains ensures row !in SentSet(s.drains[e]) {
      if row in SentSet(s.drains[e]) {
        SentIsHeld(s, e, row);
      }
    }
  }

  lemma PublishKeepsPublishes(p: Params, s: State, l: Label, id: nat)
    requires DrainsInv(s) && Exclusive(s) && PublishesAt(s, id) && Enabled(p, s, l) && l.Publish?
    ensures PublishesAt(Apply(p, s, l), id)
  {
    var s', drain := Apply(p, s, l), s.drains[l.d];
    var row := drain.batch[|drain.outcomes|].id;
    SentSetAppend(drain, l.outcome);
    NextIsUnsent(s, l.d);
    if InFlight(s, id) {
      var e :| e in s.drains && id in SentSet(s.drains[e]);
      assert e in s'.drains && id in SentSet(s'.drains[e]);
    }
    if l.outcome.Sent? && id == row {
      assert l.d in s'.drains && id in SentSet(s'.drains[l.d]);
    }
  }

  // A drain that ends takes its sent rows out of flight.
  lemma EndOfDrain(s: State, s': State, d: nat, id: nat)
    requires DrainsInv(s) && Exclusive(s) && d in s.drains && s'.drains == s.drains - {d}
    ensures InFlight(s', id) <==> InFlight(s, id) && id !in SentSet(s.drains[d])
    ensures id in SentSet(s.drains[d]) ==> InFlight(s, id) && id in s.tables.live
  {
    if id in SentSet(s.drains[d]) {
      SentIsHeld(s, d, id);
      forall e | e in s'.drains ensures id !in SentSet(s'.drains[e]) {
        if id in SentSet(s.drains[e]) {
          SentIsHeld(s, e, id);
        }
      }
    } else if InFlight(s, id) {
      var e :| e in s.drains && id in SentSet(s.drains[e]);
      assert e in s'.drains && id in SentSet(s'.drains[e]);
    }
  }

  lemma StepKeepsPublishes(p: Params, s: State, l: Label)
    requires RowsInv(p, s) && DrainsInv(s) && Exclusive(s) && PublishesInv(s) && Enabled(p, s, l)
    ensures PublishesInv(Apply(p, s, l))
  {
    var s' := Apply(p, s, l);
    forall id: nat ensures PublishesAt(s', id) {
      assert PublishesAt(s, id) && PlacedOnce(s, id);
      match l
      case Publish(_, _) => PublishKeepsPublishes(p, s, l, id);
      case Commit(d) => EndOfDrain(s, s', d, id);
      case Rollback(d) => EndOfDrain(s, s', d, id);
      case Open(d, _) => ClaimSentNothing(s, s', d, id);
      case Lock(d, _) => ClaimSentNothing(s, s', d, id);
      case _ => assert s'.drains == s.drains;
    }
  }

  lemma ClaimSentNothing(s: State, s': State, d: nat, id: nat)
    requires d in s.drains ==> s.drains[d].outcomes == []
    requires d in s'.drains && s'.drains[d].outcomes == [] && s'.drains == s.drains[d := s'.drains[d]]
    ensures InFlight(s', id) <==> InFlight(s, id)
  {
    if InFlight(s, id) {
      var e :| e in s.drains && id in SentSet(s.drains[e]);
      assert e in s'.drains && id in SentSet(s'.drains[e]);
    }
  }

  lemma StepKeepsInv(p: Params, s: State, l: Label)
    requires 0 < p.maxAttempts && Inv(p, s) && Enabled(p, s, l)
    ensures Inv(p, Apply(p, s, l))
  {
    StepKeepsRows(p, s, l);
    StepKeepsLog(p, s, l);
    if l.Commit? {
      CommitKeepsDrains(p, s, l.d);
    } else {
      StepKeepsDrains(p, s, l);
    }
    StepKeepsExclusive(p, s, l);
    StepKeepsPublishes(p, s, l);
  }

  lemma InitHoldsInv(p: Params, s: State)
    requires Init(s)
    ensures Inv(p, s)
  {
    forall id: nat ensures PlacedOnce(s, id) && AttemptsAt(p, s, id) && PublishesAt(s, id) {
      assert LogIds(s.log) == {} && !InFlight(s, id);
    }
  }

  lemma {:induction false} ReachableInv(p: Params, run: seq<State>)
    requires 0 < p.maxAttempts && Behavior(p, run)
    ensures Inv(p, Final(run))
    decreases |run|
  {
    if |run| == 1 {
      InitHoldsInv(p, run[0]);
    } else {
      var before := run[..|run| - 1];
      ReachableInv(p, before);
      assert Step(p, run[|run| - 2], run[|run| - 1]);
      var l :| Enabled(p, Final(before), l) && Final(run) == Apply(p, Final(before), l);
      StepKeepsInv(p, Final(before), l);
    }
  }

  /* ---- Theorems over whole runs ---- */

  // Each committed event is in exactly one of outbox, outbox_dead or gone, unchanged; gone means published.
  lemma Conservation(p: Params, run: seq<State>, i: nat)
    requires 0 < p.maxAttempts && Behavior(p, run) && i < |Final(run).log|
    ensures var s := Final(run);
      var Entry(id, event, at) := s.log[i];
      && (if id in s.tables.live then id !in s.tables.dead && id !in s.gone
          else if id in s.tables.dead then id !in s.gone
          else id in s.gone)
      && (id in s.tables.live ==>
          && s.tables.live[id].event == event && s.tables.live[id].createdAt == at
          && (Count(s.rejected, id) == 0 ==> s.tables.live[id].due == at))
      && (id in s.tables.dead ==> s.tables.dead[id].event == event)
      && (id in s.gone ==> Count(s.published, id) >= 1)
      && (forall j :: 0 <= j < |s.log| && j != i ==> s.log[j].id != id)
  {
    ReachableInv(p, run);
    var s := Final(run);
    assert EntryInv(s, s.log[i]) && PlacedOnce(s, s.log[i].id) && PublishesAt(s, s.log[i].id);
  }

  // Attempts count committed permanent rejections, and only those.
  lemma AttemptsAccounting(p: Params, run: seq<State>, id: nat)
    requires 0 < p.maxAttempts && Behavior(p, run)
    ensures AttemptsAt(p, Final(run), id)
  {
    ReachableInv(p, run);
    assert PlacedOnce(Final(run), id);
  }

  // A dead letter tells what became of its event: when it was written, what it said, how often it was rejected,
  // and the error of the last committed rejection.
  lemma DeadLettersTellWhy(p: Params, run: seq<State>, i: nat)
    requires 0 < p.maxAttempts && Behavior(p, run) && i < |Final(run).log|
    ensures var s := Final(run);
      var Entry(id, event, at) := s.log[i];
      id in s.tables.dead ==>
        && Count(s.rejected, id) == p.maxAttempts && id in s.errors
        && s.tables.dead[id] == DeadRow(event, p.maxAttempts, at, s.errors[id])
  {
    var s := Final(run);
    ReachableInv(p, run);
    assert EntryInv(s, s.log[i]) && PlacedOnce(s, s.log[i].id);
  }

  // The number of successful publishes of a row is the number of rollbacks that followed one, plus at most one.
  lemma PublishedOncePlusRollbacks(p: Params, run: seq<State>, id: nat)
    requires 0 < p.maxAttempts && Behavior(p, run)
    ensures var s := Final(run);
      && Count(s.aborted, id) <= Count(s.published, id) <= Count(s.aborted, id) + 1
      && (Count(s.published, id) == Count(s.aborted, id) + 1 <==> id in s.gone || InFlight(s, id))
  {
    var s := Final(run);
    ReachableInv(p, run);
    assert PublishesAt(s, id) && PlacedOnce(s, id);
    if InFlight(s, id) {
      var d :| d in s.drains && id in SentSet(s.drains[d]);
      SentIsHeld(s, d, id);
    }
  }

  lemma ClaimExclusion(p: Params, run: seq<State>, d: nat, e: nat, id: nat)
    requires 0 < p.maxAttempts && Behavior(p, run)
    requires d in Final(run).drains && e in Final(run).drains
    requires Holds(Final(run).drains[d], id) && Holds(Final(run).drains[e], id)
    ensures d == e
  {
    ReachableInv(p, run);
  }

  // Rows are claimed, and so published, in the order of their ids.
  lemma BatchInOrder(p: Params, run: seq<State>, d: nat, i: nat, j: nat)
    requires 0 < p.maxAttempts && Behavior(p, run) && d in Final(run).drains && i < j < |Final(run).drains[d].batch|
    ensures Final(run).drains[d].batch[i].id < Final(run).drains[d].batch[j].id
  {
    var drain := Final(run).drains[d];
    ReachableInv(p, run);
    assert DrainInv(Final(run), drain);
    assert Ids(drain.batch)[i] < Ids(drain.batch)[j];
  }

  // A drain can end at any point without a trace in the tables, and its rows are then free for others.
  lemma RollbackFreesRows(p: Params, run: seq<State>, d: nat, i: nat)
    requires 0 < p.maxAttempts && Behavior(p, run) && d in Final(run).drains && i < |Final(run).drains[d].batch|
    ensures Enabled(p, Final(run), Rollback(d))
    ensures var s, s', id := Final(run), Apply(p, Final(run), Rollback(d)), Final(run).drains[d].batch[i].id;
      s'.tables == s.tables && id in s'.tables.live && id !in Locked(s')
  {
    var s := Final(run);
    var s', id := Apply(p, s, Rollback(d)), s.drains[d].batch[i].id;
    ReachableInv(p, run);
    assert DrainInv(s, s.drains[d]) && Holds(s.drains[d], id);
    assert forall e :: e in s'.drains ==> !Holds(s'.drains[e], id);
  }

  // A transient failure, like not being attempted at all, costs a row nothing: neither an attempt nor a delay.
  lemma TransientCostsNothing(p: Params, run: seq<State>, d: nat, i: nat)
    requires 0 < p.maxAttempts && Behavior(p, run) && Enabled(p, Final(run), Commit(d))
    requires var drain := Final(run).drains[d];
      i < |drain.batch| && (i < |drain.outcomes| ==> drain.outcomes[i].Transient?)
    ensures var s, s', id := Final(run), Apply(p, Final(run), Commit(d)), Final(run).drains[d].batch[i].id;
      && id in s.tables.live && id in s'.tables.live && s'.tables.live[id] == s.tables.live[id]
      && Count(s'.rejected, id) == Count(s.rejected, id)
  {
    var s := Final(run);
    ReachableInv(p, run);
    assert DrainInv(s, s.drains[d]);
    if i < |s.drains[d].outcomes| {
      CommitAttempted(p, s, d, i);
    } else {
      CommitUnattempted(p, s, d, s.drains[d].batch[i].id);
    }
  }

  /* ---- The claim as one query ---- */

  lemma Extend(p: Params, run: seq<State>, l: Label) returns (longer: seq<State>)
    requires Behavior(p, run) && Enabled(p, Final(run), l)
    ensures Behavior(p, longer) && Final(longer) == Apply(p, Final(run), l)
  {
    longer := run + [Apply(p, Final(run), l)];
    assert Step(p, Final(run), Final(longer));
  }

  // The batch that the query selects for the locks of one moment is one of those that row by row locking reaches.
  lemma {:induction false} ClaimRowByRow(p: Params, run: seq<State>, d: nat, start: nat, batch: seq<Claimed>, k: nat)
    returns (longer: seq<State>)
    requires Behavior(p, run) && d !in Final(run).drains && start <= Final(run).now && k <= |batch|
    requires IsClaim(Final(run).tables.live, Locked(Final(run)), start, batch, p.batchSize)
    ensures Behavior(p, longer)
    ensures Final(longer) == Final(run).(drains := Final(run).drains[d := Drain(start, batch[..k], [])])
    decreases k
  {
    var s := Final(run);
    if k == 0 {
      longer := Extend(p, run, Open(d, start));
    } else {
      longer := ClaimRowByRow(p, run, d, start, batch, k - 1);
      NextIsDue(s, Final(longer), d, start, batch, k - 1, p.batchSize);
      longer := Extend(p, longer, Lock(d, batch[k - 1].id));
      assert batch[..k] == batch[..k - 1] + [batch[k - 1]];
    }
  }

  lemma NextIsDue(s: State, s': State, d: nat, start: nat, batch: seq<Claimed>, k: nat, n: nat)
    requires IsClaim(s.tables.live, Locked(s), start, batch, n) && k < |batch| && d !in s.drains
    requires s' == s.(drains := s.drains[d := Drain(start, batch[..k], [])])
    ensures Due(s'.tables.live, Locked(s'), start, batch[k].id) && Below(Ids(batch[..k]), batch[k].id)
  {
    forall i | 0 <= i < k ensures batch[i].id < batch[k].id {
      assert Ids(batch)[i] < Ids(batch)[k];
    }
  }

  lemma {:induction false} PublishInOrder(p: Params, run: seq<State>, d: nat, publish: nat -> Outcome, n: nat)
    returns (longer: seq<State>)
    requires Behavior(p, run) && d in Final(run).drains
    requires Final(run).drains[d].outcomes == [] && n <= |Final(run).drains[d].batch|
    ensures Behavior(p, longer)
    ensures var s, s' := Final(run), Final(longer);
      s' == s.(drains := s.drains[d := s.drains[d].(outcomes := Attempts(n, publish))], published := s'.published)
    decreases n
  {
    if n == 0 {
      longer := run;
      assert Final(run).drains[d := Final(run).drains[d]] == Final(run).drains;
    } else {
      longer := PublishInOrder(p, run, d, publish, n - 1);
      if !Stopped(Attempts(n - 1, publish)) {
        longer := Extend(p, longer, Publish(d, publish(n - 1)));
      }
    }
  }

  // A drain that nobody interrupts settles the batch of its claim as DrainBatch does.
  lemma DrainRunsAlone(p: Params, run: seq<State>, d: nat, start: nat, batch: seq<Claimed>, publish: nat -> Outcome)
    returns (longer: seq<State>)
    requires Behavior(p, run) && d !in Final(run).drains && start <= Final(run).now
    requires IsClaim(Final(run).tables.live, Locked(Final(run)), start, batch, p.batchSize)
    ensures Behavior(p, longer)
    ensures Final(longer).tables ==
            Settle(Final(run).tables, batch, Attempts(|batch|, publish), start, p.maxAttempts)
    ensures Final(longer).drains == Final(run).drains && Final(longer).log == Final(run).log
  {
    longer := ClaimRowByRow(p, run, d, start, batch, |batch|);
    assert batch[..|batch|] == batch;
    longer := PublishInOrder(p, longer, d, publish, |batch|);
    var ready := Final(longer);
    assert ready.drains[d] == Drain(start, batch, Attempts(|batch|, publish));
    assert ready.drains - {d} == Final(run).drains;
    longer := Extend(p, longer, Commit(d));
  }
}
