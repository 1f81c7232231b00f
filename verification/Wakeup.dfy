/**
 Waking the relay: writers NOTIFY at commit, a held LISTEN connection buffers what arrives between waits,
 and the poll interval bounds every wait. One relay is followed through its loop over the shared outbox.
 */
module Wakeup {
  import opened Domain
  import opened OutboxDrain
  import O = OutboxProtocol
  import Relay

  datatype WaitOutcome = Notified | TimedOut | Cancelled | Broken

  // What a wait leaves of the connection, when arriving notifications come in the meantime: one notification is
  // taken, a poll tick finds none, and a failure closes the connection.
  function AfterWait(conn: Option<nat>, arriving: nat, outcome: WaitOutcome): Option<nat> {
    var buffered := arriving + if conn.Some? then conn.value else 0;
    match outcome
    case Notified => if buffered > 0 then Some(buffered - 1) else Some(0)
    case TimedOut => Some(buffered)
    case _ => None
  }

  // The dedicated LISTEN connection; conn is the number of notifications buffered on it.
  class Listener {
    var conn: Option<nat>

    constructor ()
      ensures conn == None
    {
      conn := None;
    }

    method Acquire(ok: bool) returns (failed: bool)
      modifies this`conn
      ensures failed == (old(conn).None? && !ok)
      ensures conn == if old(conn).None? && ok then Some(0) else old(conn)
    {
      if conn.Some? {
        return false;
      }
      if !ok {
        return true;
      }
      conn := Some(0);
      failed := false;
    }

    method Release()
      modifies this`conn
      ensures conn == None
    {
      conn := None;
    }

    // Nil for a notification and for a poll tick alike; the connection survives both. A notification already
    // buffered, or one of those arriving meanwhile, ends the wait before its timeout.
    method Await(acquires: bool, arriving: nat, outcome: WaitOutcome) returns (failed: bool)
      requires outcome.Notified? ==> (if conn.Some? then conn.value else 0) + arriving > 0
      requires outcome.TimedOut? ==> (if conn.Some? then conn.value else 0) + arriving == 0
      modifies this`conn
      ensures failed <==> (old(conn).None? && !acquires) || outcome.Cancelled? || outcome.Broken?
      ensures failed ==> conn == None
      ensures !failed && outcome.Notified? ==>
        conn == Some((if old(conn).Some? then old(conn).value else 0) + arriving - 1)
      ensures !failed && outcome.TimedOut? ==> conn == Some(0)
      ensures !failed ==> conn == AfterWait(old(conn), arriving, outcome)
    {
      failed := Acquire(acquires);
      if failed {
        return;
      }
      conn := Some(conn.value + arriving);
      match outcome {
        case Notified =>
          conn := Some(conn.value - 1);
        case TimedOut =>
        case Cancelled =>
          Release();
          failed := true;
        case Broken =>
          Release();
          failed := true;
      }
    }
  }

  /* ---- One relay's loop over the outbox, among other relays and committing writers ---- */

  datatype Params = Params(outbox: O.Params, poll: nat)

  datatype Phase =
    | Idle                                // about to drain: at first, after a wait, a full claim or a back-off
    | Claiming(d: nat)                    // the drain's transaction has begun, and is claiming row by row
    | Draining(d: nat)                    // its batch is complete
    | Drained                             // neither full nor failed, so the relay goes on to wait
    | Awaiting(began: nat)                // in Await, since began
    | Fallback(began: nat, paused: nat)   // Await failed at paused; sleeping one poll interval out

  datatype State = State(
    outbox: O.State,
    conn: Option<nat>,    // notifications buffered on the LISTEN connection, if there is one
    phase: Phase,
    seen: nat,            // how many events were committed when the last drain's transaction began
    held: bool,           // the connection has been held since before that
    skipped: set<nat>)    // rows that other drains held when the last claim reached them

  datatype Label =
    | Tick(d: nat)
    | Others(step: O.Label)   // a writer's commit, or a step of another relay
    | BeginDrain(d: nat)
    | Lock(id: nat)
    | Skip(id: nat)
    | EndClaim
    | Publish(outcome: Outcome)
    | CommitDrain
    | FailDrain               // rolled back; backs off, deaf to notifications, then drains again
    | BeginWait(acquires: bool)
    | Notify
    | PollTick
    | ConnBreaks
    | FallbackOver

  // Timers fire on time: the clock does not run past a wait's end.
  function Deadline(p: Params, s: State): Option<nat> {
    match s.phase
    case Awaiting(began) => Some(began + p.poll)
    case Fallback(_, paused) => Some(paused + p.poll)
    case _ => None
  }

  predicate Open(s: State) {
    (s.phase.Claiming? || s.phase.Draining?) && s.phase.d in s.outbox.drains
  }

  // A step of the drain that this relay has open.
  predicate Own(s: State, l: O.Label) {
    (s.phase.Claiming? || s.phase.Draining?) && (l.Lock? || l.Publish? || l.Commit? || l.Rollback?) && l.d == s.phase.d
  }

  // What this relay does to the outbox.
  function OutboxStep(s: State, l: Label): Option<O.Label> {
    match l
    case Tick(d) => Some(O.Tick(d))
    case Others(step) => Some(step)
    case BeginDrain(d) => Some(O.Open(d, s.outbox.now))
    case Lock(id) => if Open(s) then Some(O.Lock(s.phase.d, id)) else None
    case Publish(outcome) => if Open(s) then Some(O.Publish(s.phase.d, outcome)) else None
    case CommitDrain => if Open(s) then Some(O.Commit(s.phase.d)) else None
    case FailDrain => if Open(s) then Some(O.Rollback(s.phase.d)) else None
    case _ => None
  }

  // The row's event was committed before the last drain's transaction began.
  predicate Seen(s: State, id: nat) {
    exists i :: 0 <= i < s.seen && i < |s.outbox.log| && s.outbox.log[i].id == id
  }

  predicate BehindFullBatch(p: Params, batch: seq<Claimed>, id: nat) {
    |batch| == p.outbox.batchSize && Below(Ids(batch), id)
  }

  // The claim has reached the row and locked or skipped it, or has ended before it with a full batch.
  predicate Handled(p: Params, s: State, id: nat)
    requires Open(s)
  {
    var batch := s.outbox.drains[s.phase.d].batch;
    id in Ids(batch) || id in s.skipped || BehindFullBatch(p, batch, id)
  }

  // The claim's snapshot holds at least the rows committed before its transaction began.
  predicate Scanned(p: Params, s: State)
    requires Open(s)
  {
    var live, start := s.outbox.tables.live, s.outbox.drains[s.phase.d].start;
    forall id :: id in live && live[id].due <= start && Seen(s, id) ==> Handled(p, s, id)
  }

  predicate Enabled(p: Params, s: State, l: Label) {
    && (OutboxStep(s, l).Some? ==> O.Enabled(p.outbox, s.outbox, OutboxStep(s, l).value))
    && match l
       case Tick(d) => Deadline(p, s).Some? ==> s.outbox.now + d <= Deadline(p, s).value
       case Others(step) => !step.Tick? && !Own(s, step)
       case BeginDrain(_) => s.phase.Idle?
       case Lock(_) => s.phase.Claiming? && Open(s)
       case Skip(id) =>
         && s.phase.Claiming? && Open(s)
         && exists e :: e in s.outbox.drains && e != s.phase.d && O.Holds(s.outbox.drains[e], id)
       case EndClaim => s.phase.Claiming? && Open(s) && Scanned(p, s)
       case Publish(_) => s.phase.Draining? && Open(s)
       case CommitDrain => s.phase.Draining? && Open(s)
       case FailDrain => Open(s)
       case BeginWait(_) => s.phase.Drained?
       case Notify => s.phase.Awaiting? && s.conn.Some? && s.conn.value > 0
       case PollTick => s.phase.Awaiting? && s.outbox.now == s.phase.began + p.poll
       case ConnBreaks => s.conn.Some?
       case FallbackOver => s.phase.Fallback? && s.outbox.now == s.phase.paused + p.poll
  }

  // Run waits after a drain that was neither full nor failed.
  predicate GoesToWait(p: Params, drain: O.Drain) {
    !Stopped(drain.outcomes) && !(drain.batch != [] && |drain.batch| == p.outbox.batchSize)
  }

  // That is what Run does with the drain's result.
  lemma RestsAsRunDoes(p: Params, drain: O.Drain, results: seq<DrainResult>, result: DrainResult, poll: int)
    requires result.full == (drain.batch != [] && |drain.batch| == p.outbox.batchSize)
    requires result.err.Some? <==> Stopped(drain.outcomes)
    ensures GoesToWait(p, drain) <==> Relay.ActionAfter(results + [result], poll) == Relay.Wait
  {
  }

  // What the step makes of the relay itself.
  function Relayed(p: Params, s: State, l: Label): State
    requires Enabled(p, s, l)
  {
    match l
    case Tick(_) => s
    // NOTIFY is delivered with the writer's commit
    case Others(step) => if step.Insert? && s.conn.Some? then s.(conn := Some(s.conn.value + 1)) else s
    case BeginDrain(d) => s.(phase := Claiming(d), seen := |s.outbox.log|, held := s.conn.Some?, skipped := {})
    case Lock(_) => s
    case Skip(id) => s.(skipped := s.skipped + {id})
    case EndClaim => s.(phase := Draining(s.phase.d))
    case Publish(_) => s
    case CommitDrain => s.(phase := if GoesToWait(p, s.outbox.drains[s.phase.d]) then Drained else Idle)
    case FailDrain => s.(phase := Idle)
    case BeginWait(acquires) =>
      if s.conn.Some? then s.(phase := Awaiting(s.outbox.now))
      else if acquires then s.(conn := Some(0), phase := Awaiting(s.outbox.now))
      else s.(phase := Fallback(s.outbox.now, s.outbox.now))
    case Notify => s.(conn := Some(s.conn.value - 1), phase := Idle)
    case PollTick => s.(phase := Idle)
    // a broken connection is noticed by the wait that uses it
    case ConnBreaks =>
      s.(conn := None, held := false,
         phase := if s.phase.Awaiting? then Fallback(s.phase.began, s.outbox.now) else s.phase)
    case FallbackOver => s.(phase := Idle)
  }

  function Apply(p: Params, s: State, l: Label): State
    requires Enabled(p, s, l)
  {
    var s' := Relayed(p, s, l);
    if OutboxStep(s, l).Some? then s'.(outbox := O.Apply(p.outbox, s.outbox, OutboxStep(s, l).value)) else s'
  }

  ghost predicate Init(s: State) {
    O.Init(s.outbox) && s.conn.None? && s.phase.Idle? && s.seen == 0 && !s.held
  }

  ghost predicate Step(p: Params, s: State, s': State) {
    exists l :: Enabled(p, s, l) && s' == Apply(p, s, l)
  }

  ghost predicate Behavior(p: Params, run: seq<State>) {
    && |run| > 0 && Init(run[0])
    && forall i :: 0 <= i < |run| - 1 ==> Step(p, run[i], run[i + 1])
  }

  function Final(run: seq<State>): State
    requires |run| > 0
  {
    run[|run| - 1]
  }

  predicate ValidSettings(p: Params) {
    0 < p.outbox.batchSize && 0 < p.outbox.maxAttempts
  }

  // The ways out of Awaiting leave of the connection what Await does.
  lemma WaitEndsAsAwaitDoes(p: Params, s: State, l: Label)
    requires Enabled(p, s, l) && s.phase.Awaiting? && s.conn.Some?
    ensures l.Notify? ==> Apply(p, s, l).conn == AfterWait(s.conn, 0, Notified) && Apply(p, s, l).phase.Idle?
    ensures l.PollTick? ==> Apply(p, s, l).conn == AfterWait(s.conn, 0, TimedOut) && Apply(p, s, l).phase.Idle?
    ensures l.ConnBreaks? ==> Apply(p, s, l).conn == AfterWait(s.conn, 0, Broken) && Apply(p, s, l).phase.Fallback?
  {
  }

  /* ---- The invariant ---- */

  // A row that waits for its first attempt.
  predicate Fresh(s: O.State, id: nat) {
    id in s.tables.live && s.tables.live[id].attempts == 0
  }

  predicate FreshAreDue(s: O.State) {
    forall id :: id in s.tables.live && Fresh(s, id) ==> s.tables.live[id].due <= s.now
  }

  // A connection held since the last drain began has a notification for every event committed since.
  predicate ListenInv(p: Params, s: State) {
    && s.seen <= |s.outbox.log|
    && (s.held ==> s.conn.Some?)
    && (s.held && !s.phase.Idle? ==> |s.outbox.log| - s.seen <= s.conn.value)
    && (s.phase.Awaiting? ==> s.conn.Some? && s.phase.began <= s.outbox.now <= s.phase.began + p.poll)
    && (s.phase.Fallback? ==> s.phase.began <= s.phase.paused <= s.phase.began + p.poll
                              && s.phase.paused <= s.outbox.now <= s.phase.paused + p.poll)
  }

  // What the drain under way, or the last one, does about a fresh row committed before it began.
  predicate Noticed(p: Params, s: State, id: nat) {
    match s.phase
    case Idle => true
    case Claiming(d) =>
      d in s.outbox.drains && id in s.outbox.tables.live ==> s.outbox.tables.live[id].due <= s.outbox.drains[d].start
    case Draining(d) => d in s.outbox.drains ==> Handled(p, s, id)
    case _ => id in s.skipped
  }

  ghost predicate NoticedInv(p: Params, s: State) {
    forall id: nat {:trigger Fresh(s.outbox, id)} :: Fresh(s.outbox, id) && Seen(s, id) ==> Noticed(p, s, id)
  }

  ghost predicate Inv(p: Params, s: State) {
    && O.Inv(p.outbox, s.outbox) && FreshAreDue(s.outbox) && ListenInv(p, s)
    && (s.phase.Claiming? || s.phase.Draining? ==> Open(s))
    && NoticedInv(p, s)
  }

  // No step of the outbox makes an old row fresh.
  lemma FreshRowIsOld(p: O.Params, s: O.State, l: O.Label, id: nat)
    requires O.Inv(p, s) && O.Enabled(p, s, l) && Fresh(O.Apply(p, s, l), id)
    ensures (l.Insert? && id == l.id) || (Fresh(s, id) && O.Apply(p, s, l).tables.live[id] == s.tables.live[id])
  {
    if l.Commit? {
      assert O.DrainInv(s, s.drains[l.d]);
      if O.Attempted(s.drains[l.d], id) {
        var i :| 0 <= i < |s.drains[l.d].outcomes| && i < |s.drains[l.d].batch| && s.drains[l.d].batch[i].id == id;
        O.CommitAttempted(p, s, l.d, i);
      } else {
        O.CommitUnattempted(p, s, l.d, id);
      }
    }
  }

  lemma StepKeepsFreshDue(p: O.Params, s: O.State, l: O.Label)
    requires O.Inv(p, s) && O.Enabled(p, s, l) && FreshAreDue(s)
    ensures FreshAreDue(O.Apply(p, s, l)) && s.now <= O.Apply(p, s, l).now
  {
    var s' := O.Apply(p, s, l);
    forall id | id in s'.tables.live && Fresh(s', id) ensures s'.tables.live[id].due <= s'.now {
      FreshRowIsOld(p, s, l, id);
    }
  }

  lemma OutboxStepKeepsListenInv(p: Params, s: State, l: Label)
    requires ListenInv(p, s) && Enabled(p, s, l) && OutboxStep(s, l).Some?
    ensures ListenInv(p, Apply(p, s, l))
  {
  }

  lemma StepKeepsListenInv(p: Params, s: State, l: Label)
    requires ListenInv(p, s) && Enabled(p, s, l)
    ensures ListenInv(p, Apply(p, s, l))
  {
    if OutboxStep(s, l).Some? {
      OutboxStepKeepsListenInv(p, s, l);
    }
  }

  // Rows that a drain which goes on to wait has attempted are fresh no more.
  lemma AttemptedIsNotFresh(p: Params, s: O.State, d: nat, i: nat)
    requires O.Inv(p.outbox, s) && O.Enabled(p.outbox, s, O.Commit(d))
    requires GoesToWait(p, s.drains[d]) && i < |s.drains[d].batch|
    ensures !Fresh(O.Apply(p.outbox, s, O.Commit(d)), s.drains[d].batch[i].id)
  {
    assert O.DrainInv(s, s.drains[d]);
    O.CommitAttempted(p.outbox, s, d, i);
  }

  // A fresh row seen after a step of the outbox was fresh and seen before it.
  lemma SeenRowIsOld(p: Params, s: State, l: Label, id: nat)
    requires Inv(p, s) && Enabled(p, s, l) && OutboxStep(s, l).Some? && !l.BeginDrain?
    requires Fresh(Apply(p, s, l).outbox, id) && Seen(Apply(p, s, l), id)
    ensures Fresh(s.outbox, id) && Seen(s, id) && Noticed(p, s, id)
    ensures Apply(p, s, l).outbox.tables.live[id] == s.outbox.tables.live[id]
  {
    var step := OutboxStep(s, l).value;
    var i :| 0 <= i < s.seen && Apply(p, s, l).outbox.log[i].id == id;
    assert s.outbox.log[i].id in O.LogIds(s.outbox.log);
    FreshRowIsOld(p.outbox, s.outbox, step, id);
  }

  lemma CommitKeepsNoticed(p: Params, s: State, id: nat)
    requires ValidSettings(p) && Inv(p, s) && Enabled(p, s, CommitDrain)
    requires Noticed(p, s, id) && Fresh(Apply(p, s, CommitDrain).outbox, id)
    ensures Noticed(p, Apply(p, s, CommitDrain), id)
  {
    var drain := s.outbox.drains[s.phase.d];
    if GoesToWait(p, drain) && id in Ids(drain.batch) {
      var i :| 0 <= i < |drain.batch| && Ids(drain.batch)[i] == id;
      AttemptedIsNotFresh(p, s.outbox, s.phase.d, i);
    }
  }

  // A step that is not the drain's own leaves the drain as it is.
  lemma DrainStays(p: O.Params, s: O.State, l: O.Label, d: nat)
    requires O.Enabled(p, s, l) && d in s.drains
    requires !((l.Lock? || l.Publish? || l.Commit? || l.Rollback?) && l.d == d)
    ensures d in O.Apply(p, s, l).drains && O.Apply(p, s, l).drains[d] == s.drains[d]
  {
  }

  lemma OtherStepKeepsNoticed(p: Params, s: State, l: Label, id: nat)
    requires Inv(p, s) && Enabled(p, s, l) && (l.Tick? || l.Others?)
    requires Fresh(Apply(p, s, l).outbox, id) && Seen(Apply(p, s, l), id)
    ensures Noticed(p, Apply(p, s, l), id)
  {
    SeenRowIsOld(p, s, l, id);
    if Open(s) {
      DrainStays(p.outbox, s.outbox, OutboxStep(s, l).value, s.phase.d);
    }
  }

  // Locking leaves the drain's start alone, and publishing its batch.
  lemma OwnStepKeepsNoticed(p: Params, s: State, l: Label, id: nat)
    requires Inv(p, s) && Enabled(p, s, l) && (l.Lock? || l.Publish?)
    requires Fresh(Apply(p, s, l).outbox, id) && Seen(Apply(p, s, l), id)
    ensures Noticed(p, Apply(p, s, l), id)
  {
    SeenRowIsOld(p, s, l, id);
  }

  lemma StepKeepsNoticed(p: Params, s: State, l: Label, id: nat)
    requires ValidSettings(p) && Inv(p, s) && Enabled(p, s, l)
    requires Fresh(Apply(p, s, l).outbox, id) && Seen(Apply(p, s, l), id)
    ensures Noticed(p, Apply(p, s, l), id)
  {
    match l
    case Tick(_) => OtherStepKeepsNoticed(p, s, l, id);
    case Others(_) => OtherStepKeepsNoticed(p, s, l, id);
    case Lock(_) => OwnStepKeepsNoticed(p, s, l, id);
    case Publish(_) => OwnStepKeepsNoticed(p, s, l, id);
    case CommitDrain =>
      SeenRowIsOld(p, s, l, id);
      CommitKeepsNoticed(p, s, id);
    case _ =>
  }

  lemma StepKeepsInv(p: Params, s: State, l: Label)
    requires ValidSettings(p) && Inv(p, s) && Enabled(p, s, l)
    ensures Inv(p, Apply(p, s, l))
  {
    var s' := Apply(p, s, l);
    if OutboxStep(s, l).Some? {
      O.StepKeepsInv(p.outbox, s.outbox, OutboxStep(s, l).value);
      StepKeepsFreshDue(p.outbox, s.outbox, OutboxStep(s, l).value);
    }
    StepKeepsListenInv(p, s, l);
    forall id: nat | Fresh(s'.outbox, id) && Seen(s', id) ensures Noticed(p, s', id) {
      StepKeepsNoticed(p, s, l, id);
    }
  }

  lemma {:induction false} ReachableInv(p: Params, run: seq<State>)
    requires ValidSettings(p) && Behavior(p, run)
    ensures Inv(p, Final(run))
    decreases |run|
  {
    if |run| == 1 {
      O.InitHoldsInv(p.outbox, run[0].outbox);
    } else {
      var before := run[..|run| - 1];
      ReachableInv(p, before);
      assert Step(p, run[|run| - 2], run[|run| - 1]);
      var l :| Enabled(p, Final(before), l) && Final(run) == Apply(p, Final(before), l);
      StepKeepsInv(p, Final(before), l);
    }
  }

  /* ---- Theorems over whole runs ---- */

  // With the connection held since before the last drain began, a wait returns at once while an event is
  // unseen: one committed since, or any row still waiting for its first attempt that no other relay held.
  lemma NoLostWakeup(p: Params, run: seq<State>, id: nat)
    requires ValidSettings(p) && Behavior(p, run)
    requires Final(run).phase.Awaiting? && Final(run).held
    requires Final(run).seen < |Final(run).outbox.log| || (Fresh(Final(run).outbox, id) && id !in Final(run).skipped)
    ensures Enabled(p, Final(run), Notify)
  {
    var s := Final(run);
    ReachableInv(p, run);
    if s.seen == |s.outbox.log| {
      assert O.PlacedOnce(s.outbox, id) && id in O.LogIds(s.outbox.log);
      var i :| 0 <= i < |s.outbox.log| && s.outbox.log[i].id == id;
      assert Seen(s, id);
    }
  }

  // And the drain it wakes to takes the row, unless another relay held it when the claim reached it or a full
  // batch of older rows goes first: a row committed before the drain began is due by then.
  lemma NextClaimTakesFreshRow(p: Params, run: seq<State>, id: nat)
    requires ValidSettings(p) && Behavior(p, run) && Final(run).phase.Draining?
    requires Fresh(Final(run).outbox, id) && Seen(Final(run), id)
    ensures Open(Final(run)) && Handled(p, Final(run), id)
  {
    ReachableInv(p, run);
    assert Noticed(p, Final(run), id);
  }

  // The claim never gets stuck: while the batch is not full, the next due row can be locked or is held by another.
  lemma NextRowIsLockedOrSkipped(p: Params, s: State, id: nat)
    requires s.phase.Claiming? && Open(s) && s.outbox.drains[s.phase.d].outcomes == []
    requires var drain := s.outbox.drains[s.phase.d];
      && |drain.batch| < p.outbox.batchSize && Below(Ids(drain.batch), id)
      && id in s.outbox.tables.live && s.outbox.tables.live[id].due <= drain.start
    ensures Enabled(p, s, Lock(id)) || Enabled(p, s, Skip(id))
    ensures Enabled(p, s, FailDrain)
  {
    var batch := s.outbox.drains[s.phase.d].batch;
    assert forall i :: 0 <= i < |batch| ==> Ids(batch)[i] == batch[i].id;
    if id in O.Locked(s.outbox) {
      var e, i :| e in s.outbox.drains && 0 <= i < |s.outbox.drains[e].batch| && s.outbox.drains[e].batch[i].id == id;
      assert O.Holds(s.outbox.drains[e], id);
    }
  }

  // Every row there is when a drain begins counts as seen by it.
  lemma BeginDrainSeesAll(p: Params, run: seq<State>, d: nat, id: nat)
    requires ValidSettings(p) && Behavior(p, run) && Enabled(p, Final(run), BeginDrain(d))
    requires id in Final(run).outbox.tables.live
    ensures Seen(Apply(p, Final(run), BeginDrain(d)), id)
  {
    var s := Final(run);
    ReachableInv(p, run);
    assert O.PlacedOnce(s.outbox, id);
    var i :| 0 <= i < |s.outbox.log| && s.outbox.log[i].id == id;
    assert Apply(p, s, BeginDrain(d)).outbox.log[i].id == id;
  }

  // As timers are assumed to fire, and whatever happens to the connection, a wait ends within one poll interval,
  // or within two when Await fails on the way; at its end the relay goes on to its next drain.
  lemma WaitIsBounded(p: Params, run: seq<State>)
    requires ValidSettings(p) && Behavior(p, run)
    ensures var s := Final(run);
      && (s.phase.Awaiting? ==>
          && s.outbox.now <= s.phase.began + p.poll
          && (s.outbox.now == s.phase.began + p.poll ==>
              && Enabled(p, s, PollTick)
              && forall d :: d !in s.outbox.drains ==> Enabled(p, Apply(p, s, PollTick), BeginDrain(d))))
      && (s.phase.Fallback? ==>
          && s.outbox.now <= s.phase.paused + p.poll && s.outbox.now <= s.phase.began + 2 * p.poll
          && (s.outbox.now == s.phase.paused + p.poll ==>
              && Enabled(p, s, FallbackOver)
              && forall d :: d !in s.outbox.drains ==> Enabled(p, Apply(p, s, FallbackOver), BeginDrain(d))))
  {
    ReachableInv(p, run);
  }

  /* ---- The bounds are met ---- */

  lemma Extend(p: Params, run: seq<State>, l: Label) returns (longer: seq<State>)
    requires Behavior(p, run) && Enabled(p, Final(run), l)
    ensures Behavior(p, longer) && Final(longer) == Apply(p, Final(run), l)
  {
    longer := run + [Apply(p, Final(run), l)];
    assert Step(p, Final(run), Final(longer));
  }

  const EMPTY := O.State(0, Tables(map[], map[]), {}, [], map[], map[], map[], map[], map[])
  const CREATED := Event(1, Created, 1, 1, 0, 10)

  lemma EmptyClaim(p: Params) returns (run: seq<State>)
    ensures Behavior(p, run)
    ensures Final(run) == State(EMPTY.(drains := map[0 := O.Drain(0, [], [])]), None, Draining(0), 0, false, {})
  {
    run := [State(EMPTY, None, Idle, 0, false, {})];
    run := Extend(p, run, BeginDrain(0));
    run := Extend(p, run, EndClaim);
  }

  // A drain finds the outbox empty; then an event is committed before the first LISTEN.
  lemma MissedEvent(p: Params) returns (run: seq<State>)
    ensures Behavior(p, run)
    ensures var s := Final(run);
      && s.outbox.now == 0 && s.phase.Drained? && s.conn.None? && Fresh(s.outbox, 0) && s.skipped == {}
  {
    run := EmptyClaim(p);
    run := Extend(p, run, CommitDrain);
    run := Extend(p, run, Others(O.Insert(0, CREATED, 0)));
  }

  // A claim can pass over a row that nobody holds when it was written after the drain's transaction began.
  lemma ClaimCanPassOver(p: Params) returns (run: seq<State>)
    ensures Behavior(p, run)
    ensures var s := Final(run);
      && Enabled(p, s, EndClaim) && s.outbox.drains[s.phase.d].batch == [] && s.skipped == {}
      && Fresh(s.outbox, 0) && O.Locked(s.outbox) == {} && !Seen(s, 0)
  {
    run := [State(EMPTY, None, Idle, 0, false, {})];
    run := Extend(p, run, BeginDrain(0));
    run := Extend(p, run, Tick(1));
    run := Extend(p, run, Others(O.Insert(0, CREATED, 1)));
  }

  // Without a connection held since before, the event is left until the poll tick: one interval, to the end.
  lemma WaitCanTakeOneInterval(p: Params) returns (run: seq<State>)
    ensures Behavior(p, run)
    ensures var s := Final(run);
      && s.phase.Awaiting? && s.outbox.now == s.phase.began + p.poll
      && Fresh(s.outbox, 0) && s.skipped == {} && s.conn.Some? && !Enabled(p, s, Notify)
  {
    run := MissedEvent(p);
    run := Extend(p, run, BeginWait(true));
    run := Extend(p, run, Tick(p.poll));
  }

  // When the connection breaks at that very moment, the fallback sleep makes it two.
  lemma WaitCanTakeTwoIntervals(p: Params) returns (run: seq<State>)
    ensures Behavior(p, run)
    ensures var s := Final(run);
      && s.phase.Fallback? && s.outbox.now == s.phase.began + 2 * p.poll && Fresh(s.outbox, 0) && s.skipped == {}
  {
    run := WaitCanTakeOneInterval(p);
    run := Extend(p, run, ConnBreaks);
    run := Extend(p, run, Tick(p.poll));
  }
}
